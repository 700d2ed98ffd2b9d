// Field transforms (gamesync_store.go, applyFieldTransform): int64-bounded
// arithmetic on one field, and the load/increment/store protocol that hands out
// participant numbers from the session-wide global.

module Transforms {
  import opened Wrappers
  import opened Values
  import opened FieldPath
  import opened FieldTree

  const COUNTER := "__upcsidn"

  /** What a batch's transforms read and write: one document's fields and the
      game session's globals. */
  datatype Cells = Cells(fields: Fields, globals: Fields)

  function IntegerOperand(v: Option<Value>): Result<int64> {
    match v
    case None => Ok(0)
    case Some(Integer(i)) => Ok(i)
    case Some(_) => Err(InvalidArgument)
  }

  function KnownGlobal(name: string): Result<()> {
    if name == COUNTER then Ok(()) else Err(Unimplemented)
  }

  predicate Overflows(a: int64, b: int64) {
    (b > 0 && a > MAX_INT64 - b) || (b < 0 && a < MIN_INT64 - b)
  }

  /** The transformed value and the globals after it; no value means there is
      nothing to write. */
  function Transformed(kind: TransformKind, current: Option<Value>, globals: Fields, now: Time)
    : Result<(Option<Value>, Fields)>
  {
    match kind
    case LoadGlobal(name) =>
      var _ :- KnownGlobal(name);
      if name in globals then Ok((Some(globals[name]), globals))
      else Ok((if current.None? then Some(Integer(0)) else current, globals))
    case StoreGlobal(name) =>
      var _ :- KnownGlobal(name);
      if current.None? then Err(FailedPrecondition)
      else Ok((current, globals[name := current.value]))
    case ClearGlobal(name) =>
      var _ :- KnownGlobal(name);
      Ok((current, globals - {name}))
    case Increment(operand) =>
      var a :- IntegerOperand(current);
      var b :- IntegerOperand(Some(operand));
      if Overflows(a, b) then Err(OutOfRange) else Ok((Some(Integer(a + b)), globals))
    case Maximum(operand) =>
      var a :- IntegerOperand(current);
      var b :- IntegerOperand(Some(operand));
      Ok((Some(Integer(if b > a then b else a)), globals))
    case Minimum(operand) =>
      var a :- IntegerOperand(current);
      var b :- IntegerOperand(Some(operand));
      Ok((Some(Integer(if b < a then b else a)), globals))
    case SetServerValue(requestTime) =>
      if !requestTime then Err(InvalidArgument) else Ok((Some(Timestamp(now)), globals))
    case EmptyTransform => Err(Unimplemented)
  }

  function ApplyTransform(t: Cells, ft: FieldTransform, now: Time): Result<(Cells, Value)> {
    var path :- ParseFieldPath(ft.fieldPath);
    var (v, globals) :- Transformed(ft.kind, ReadField(t.fields, path), t.globals, now);
    if v.None? then Err(FailedPrecondition)
    else Ok((Cells(SetField(t.fields, path, v), globals), v.value))
  }

  /** All transforms of one operation in order, with the values they answer. */
  function ApplyTransforms(t: Cells, fts: seq<FieldTransform>, now: Time): Result<(Cells, seq<Value>)> {
    if fts == [] then Ok((t, []))
    else
      var (mid, values) :- ApplyTransforms(t, fts[..|fts| - 1], now);
      var (end, v) :- ApplyTransform(mid, fts[|fts| - 1], now);
      Ok((end, values + [v]))
  }

  method ApplyTransformsLoop(t: Cells, fts: seq<FieldTransform>, now: Time)
    returns (r: Result<(Cells, seq<Value>)>)
    ensures r == ApplyTransforms(t, fts, now)
  {
    var cur, values := t, [];
    var i := 0;
    while i < |fts|
      invariant 0 <= i <= |fts|
      invariant ApplyTransforms(t, fts[..i], now) == Ok((cur, values))
    {
      var step := ApplyTransform(cur, fts[i], now);
      assert fts[..i + 1][..i] == fts[..i];
      if step.Err? {
        TransformsFail(t, fts, i + 1, now);
        return Err(step.code);
      }
      cur, values := step.value.0, values + [step.value.1];
      i := i + 1;
    }
    assert fts[..i] == fts;
    return Ok((cur, values));
  }

  lemma {:induction false} TransformsFail(t: Cells, fts: seq<FieldTransform>, i: nat, now: Time)
    requires i <= |fts| && ApplyTransforms(t, fts[..i], now).Err?
    ensures ApplyTransforms(t, fts, now) == Err(ApplyTransforms(t, fts[..i], now).code)
    decreases |fts|
  {
    if i < |fts| {
      assert fts[..|fts| - 1][..i] == fts[..i];
      TransformsFail(t, fts[..|fts| - 1], i, now);
    } else {
      assert fts[..i] == fts;
    }
  }

  /** A field that counts as a number: an integer, or nothing, which is zero. */
  predicate Numeric(v: Option<Value>) {
    v.Some? ==> v.value.Integer?
  }

  function Number(v: Option<Value>): int64
    requires Numeric(v)
  {
    if v.Some? then v.value.i else 0
  }

  /** Increment fails when field or operand is no number, and otherwise exactly
      when the true sum leaves int64; else it writes the true sum. */
  lemma IncrementIsExact(t: Cells, p: string, operand: Value, now: Time)
    requires ParseFieldPath(p).Ok?
    ensures var path := ParseFieldPath(p).value;
            var was := ReadField(t.fields, path);
            var r := ApplyTransform(t, FieldTransform(p, Increment(operand)), now);
            if !Numeric(was) || !operand.Integer? then r == Err(InvalidArgument)
            else
              var sum := Number(was) + operand.i;
              if !(MIN_INT64 <= sum <= MAX_INT64) then r == Err(OutOfRange)
              else
                && r.Ok? && r.value.1 == Integer(sum) && r.value.0.globals == t.globals
                && ReadField(r.value.0.fields, path) == Some(Integer(sum))
  {
    hide ParseFieldPath, ReadField, SetField;
    var path := ParseFieldPath(p).value;
    ParsedPathIsKeyPath(p);
    var was := ReadField(t.fields, path);
    if Numeric(was) && operand.Integer? && MIN_INT64 <= Number(was) + operand.i <= MAX_INT64 {
      ReadSetSame(t.fields, path, Some(Integer(Number(was) + operand.i)));
    }
  }

  /** Maximum and Minimum leave the field at the one of its value and the
      operand that no other exceeds, or undercuts; a missing field counts as
      zero and an operand or field of another type is refused. */
  lemma ExtremesAreExact(t: Cells, p: string, operand: Value, now: Time)
    requires ParseFieldPath(p).Ok?
    ensures var path := ParseFieldPath(p).value;
            var was := ReadField(t.fields, path);
            var up := ApplyTransform(t, FieldTransform(p, Maximum(operand)), now);
            var down := ApplyTransform(t, FieldTransform(p, Minimum(operand)), now);
            && (up.Ok? <==> Numeric(was) && operand.Integer?) && (down.Ok? <==> up.Ok?)
            && (up.Err? ==> up == Err(InvalidArgument) && down == Err(InvalidArgument))
            && (up.Ok? ==>
                  && up.value.1.Integer? && down.value.1.Integer?
                  && down.value.1.i <= Number(was) <= up.value.1.i && down.value.1.i <= operand.i <= up.value.1.i
                  && {down.value.1.i, up.value.1.i} == {Number(was), operand.i}
                  && ReadField(up.value.0.fields, path) == Some(up.value.1)
                  && ReadField(down.value.0.fields, path) == Some(down.value.1)
                  && up.value.0.globals == down.value.0.globals == t.globals)
  {
    var path := ParseFieldPath(p).value;
    ParsedPathIsKeyPath(p);
    var up := ApplyTransform(t, FieldTransform(p, Maximum(operand)), now);
    var down := ApplyTransform(t, FieldTransform(p, Minimum(operand)), now);
    if up.Ok? {
      ReadSetSame(t.fields, path, Some(up.value.1));
      ReadSetSame(t.fields, path, Some(down.value.1));
    }
  }

  /** A transform answers what it leaves at its path, never nothing, and changes
      no path that is incomparable with it. */
  lemma TransformLeaves(t: Cells, ft: FieldTransform, now: Time, q: Path)
    requires ApplyTransform(t, ft, now).Ok?
    ensures ParseFieldPath(ft.fieldPath).Ok?
    ensures var path, (t', v) := ParseFieldPath(ft.fieldPath).value, ApplyTransform(t, ft, now).value;
            && ReadField(t'.fields, path) == Some(v)
            && (Incomparable(path, q) ==> ReadField(t'.fields, q) == ReadField(t.fields, q))
  {
    hide ParseFieldPath, SetField, ReadField;
    ParsedPathIsKeyPath(ft.fieldPath);
    var path, v := ParseFieldPath(ft.fieldPath).value, ApplyTransform(t, ft, now).value.1;
    ReadSetSame(t.fields, path, Some(v));
    if Incomparable(path, q) {
      ReadSetApart(t.fields, path, Some(v), q);
    }
  }

  /** What each transform of the counter, and the server's time, answers; a
      global by another name is not known. */
  lemma GlobalTransformsAre(t: Cells, p: string, name: string, now: Time)
    requires ParseFieldPath(p).Ok?
    ensures var was := ReadField(t.fields, ParseFieldPath(p).value);
            var load := ApplyTransform(t, FieldTransform(p, LoadGlobal(name)), now);
            var store := ApplyTransform(t, FieldTransform(p, StoreGlobal(name)), now);
            var clear := ApplyTransform(t, FieldTransform(p, ClearGlobal(name)), now);
            if name != "__upcsidn" then load == store == clear == Err(Unimplemented)
            else
              && load.Ok? && load.value.0.globals == t.globals
              && load.value.1 == (if name in t.globals then t.globals[name]
                                  else if was.Some? then was.value else Integer(0))
              && (if was.None? then store == clear == Err(FailedPrecondition)
                  else
                    && store.Ok? && store.value.1 == was.value && store.value.0.globals == t.globals[name := was.value]
                    && clear.Ok? && clear.value.1 == was.value
                    && name !in clear.value.0.globals
                    && forall k :: k != name ==> Get(clear.value.0.globals, k) == Get(t.globals, k))
  {
    hide ParseFieldPath, SetField, ReadField;
  }

  /** REQUEST_TIME leaves the commit time; any other server value, and no
      transform at all, is refused. */
  lemma ServerTimeIs(t: Cells, p: string, now: Time)
    requires ParseFieldPath(p).Ok?
    ensures var r := ApplyTransform(t, FieldTransform(p, SetServerValue(true)), now);
            && r.Ok? && r.value.1 == Timestamp(now) && r.value.0.globals == t.globals
            && ReadField(r.value.0.fields, ParseFieldPath(p).value) == Some(Timestamp(now))
    ensures ApplyTransform(t, FieldTransform(p, SetServerValue(false)), now) == Err(InvalidArgument)
    ensures ApplyTransform(t, FieldTransform(p, EmptyTransform), now) == Err(Unimplemented)
  {
    TransformLeaves(t, FieldTransform(p, SetServerValue(true)), now, []);
  }

  // ----- the allocation protocol -----

  predicate UsesGlobal(kind: TransformKind) {
    kind.LoadGlobal? || kind.StoreGlobal? || kind.ClearGlobal?
  }

  /** The captured way to draw a number: load the counter into a field, raise it
      to a floor, add one, store it back. */
  function Draw(p: string, floor: int64): seq<FieldTransform> {
    [FieldTransform(p, LoadGlobal(COUNTER)), FieldTransform(p, Maximum(Integer(floor))),
     FieldTransform(p, Increment(Integer(1))), FieldTransform(p, StoreGlobal(COUNTER))]
  }

  /** Load, increment by one, store, with no floor. */
  function PlainDraw(p: string): seq<FieldTransform> {
    [FieldTransform(p, LoadGlobal(COUNTER)), FieldTransform(p, Increment(Integer(1))),
     FieldTransform(p, StoreGlobal(COUNTER))]
  }

  /** Does the transform list draw one number? */
  predicate IsDraw(fts: seq<FieldTransform>) {
    || (|fts| == 3 && fts == PlainDraw(fts[0].fieldPath))
    || (|fts| == 4 && fts[1].kind.Maximum? && fts[1].kind.operand.Integer?
        && fts == Draw(fts[0].fieldPath, fts[1].kind.operand.i))
  }

  /** How far a transform list has come with the counter: nothing under way, the
      counter loaded into a field, that field raised above it, or the counter
      used in some other way. */
  datatype Progress = Idle | Loaded(path: string) | Raised(path: string) | Broken

  /** Writing one of the two paths does not touch the other. */
  predicate Apart(p: string, q: string) {
    && ParseFieldPath(p).Ok? && ParseFieldPath(q).Ok?
    && !(ParseFieldPath(p).value <= ParseFieldPath(q).value) && !(ParseFieldPath(q).value <= ParseFieldPath(p).value)
  }

  /** Whatever is done elsewhere in the document does not matter; on the loaded
      field only a floor or a positive increment keeps the draw going, and only
      a raised field may be stored back. */
  function Advance(s: Progress, ft: FieldTransform): Progress {
    if s.Broken? then Broken
    else
      match ft.kind
      case LoadGlobal(_) => Loaded(ft.fieldPath)
      case StoreGlobal(_) => if s == Raised(ft.fieldPath) then Loaded(ft.fieldPath) else Broken
      case ClearGlobal(_) => Broken
      case Maximum(Integer(_)) =>
        if s.Idle? || Apart(s.path, ft.fieldPath) || s.path == ft.fieldPath then s else Idle
      case Increment(Integer(k)) =>
        if s.Idle? || Apart(s.path, ft.fieldPath) then s
        else if s.path == ft.fieldPath && k >= 1 then Raised(s.path)
        else Idle
      case _ => if s.Idle? || Apart(s.path, ft.fieldPath) then s else Idle
  }

  function Track(fts: seq<FieldTransform>): Progress {
    if fts == [] then Idle else Advance(Track(fts[..|fts| - 1]), fts[|fts| - 1])
  }

  /** The counter is only loaded, raised and stored back, any number of times,
      among whatever other transforms. */
  predicate Disciplined(fts: seq<FieldTransform>) {
    !Track(fts).Broken?
  }

  /** The captured draws are disciplined. */
  lemma DrawsAreDisciplined(fts: seq<FieldTransform>)
    requires IsDraw(fts)
    ensures Disciplined(fts)
  {
    hide Track, Apart;
    NotApart(fts[0].fieldPath);
    TrackNone(fts);
    TrackOn(fts, 0);
    TrackOn(fts, 1);
    TrackOn(fts, 2);
    if |fts| == 4 {
      TrackOn(fts, 3);
    }
    assert fts[..|fts|] == fts;
  }

  lemma NotApart(p: string)
    ensures !Apart(p, p)
  {
    hide ParseFieldPath;
  }

  lemma TrackNone(fts: seq<FieldTransform>)
    ensures Track(fts[..0]).Idle?
  {
  }

  lemma TrackOn(fts: seq<FieldTransform>, i: nat)
    requires i < |fts|
    ensures Track(fts[..i + 1]) == Advance(Track(fts[..i]), fts[i])
  {
    assert fts[..i + 1][..i] == fts[..i];
  }

  /** What each stage of a draw knows of its field and the counter. */
  ghost predicate Underway(s: Progress, t: Cells) {
    match s
    case Idle => true
    case Broken => false
    case Loaded(p) =>
      && ParseFieldPath(p).Ok?
      && var v := ReadField(t.fields, ParseFieldPath(p).value);
      && v.Some?
      && (COUNTER in t.globals ==>
            v.value == t.globals[COUNTER]
            || (v.value.Integer? && t.globals[COUNTER].Integer? && v.value.i >= t.globals[COUNTER].i))
    case Raised(p) =>
      && ParseFieldPath(p).Ok?
      && var v := ReadField(t.fields, ParseFieldPath(p).value);
      && v.Some? && v.value.Integer?
      && (COUNTER in t.globals ==> t.globals[COUNTER].Integer? && v.value.i > t.globals[COUNTER].i)
  }

  /** One disciplined transform: a store answers a number above the counter and
      leaves the counter at it; anything else leaves the counter alone. */
  lemma AdvanceStep(s: Progress, t: Cells, ft: FieldTransform, now: Time)
    requires Underway(s, t) && !Advance(s, ft).Broken? && ApplyTransform(t, ft, now).Ok?
    ensures var (t', v) := ApplyTransform(t, ft, now).value;
            && Underway(Advance(s, ft), t')
            && (!ft.kind.StoreGlobal? ==> t'.globals == t.globals)
            && (ft.kind.StoreGlobal? ==>
                  && v.Integer? && t'.globals == t.globals[COUNTER := v]
                  && (COUNTER in t.globals ==> t.globals[COUNTER].Integer? && t.globals[COUNTER].i < v.i))
  {
    hide ParseFieldPath, ReadField, SetField;
    ParsedPathIsKeyPath(ft.fieldPath);
    var path := ParseFieldPath(ft.fieldPath).value;
    var v := ApplyTransform(t, ft, now).value.1;
    ReadSetSame(t.fields, path, Some(v));
    if !s.Idle? && Apart(s.path, ft.fieldPath) {
      ReadSetApart(t.fields, path, Some(v), ParseFieldPath(s.path).value);
    }
  }

  lemma {:induction false} NoGlobalUseKeepsGlobals(t: Cells, fts: seq<FieldTransform>, now: Time)
    requires ApplyTransforms(t, fts, now).Ok?
    requires forall i :: 0 <= i < |fts| ==> !UsesGlobal(fts[i].kind)
    ensures ApplyTransforms(t, fts, now).value.0.globals == t.globals
    decreases |fts|
  {
    if fts != [] {
      NoGlobalUseKeepsGlobals(t, fts[..|fts| - 1], now);
    }
  }

  lemma Steps3(t: Cells, fts: seq<FieldTransform>, now: Time)
    requires |fts| == 3 && ApplyTransforms(t, fts, now).Ok?
    ensures var s1 := ApplyTransform(t, fts[0], now);
            && s1.Ok?
            && var s2 := ApplyTransform(s1.value.0, fts[1], now);
            && s2.Ok?
            && var s3 := ApplyTransform(s2.value.0, fts[2], now);
            && s3.Ok?
            && ApplyTransforms(t, fts, now).value == (s3.value.0, [s1.value.1, s2.value.1, s3.value.1])
  {
    var one, two := fts[..1], fts[..2];
    assert one[..0] == [] && two[..1] == one;
    assert ApplyTransforms(t, [], now) == Ok((t, []));
    assert ApplyTransforms(t, two, now).Ok?;
    assert ApplyTransforms(t, one, now).Ok?;
    var s1 := ApplyTransform(t, fts[0], now).value;
    assert ApplyTransforms(t, [], now).value.1 + [s1.1] == [s1.1];
    var s2 := ApplyTransform(s1.0, fts[1], now).value;
    assert [s1.1] + [s2.1] == [s1.1, s2.1];
    var s3 := ApplyTransform(s2.0, fts[2], now).value;
    assert [s1.1, s2.1] + [s3.1] == [s1.1, s2.1, s3.1];
  }

  lemma Steps4(t: Cells, fts: seq<FieldTransform>, now: Time)
    requires |fts| == 4 && ApplyTransforms(t, fts, now).Ok?
    ensures ApplyTransforms(t, fts[..3], now).Ok?
    ensures var front := ApplyTransforms(t, fts[..3], now).value;
            var s4 := ApplyTransform(front.0, fts[3], now);
            && s4.Ok?
            && ApplyTransforms(t, fts, now).value == (s4.value.0, front.1 + [s4.value.1])
  {
  }

  /** The value the counter starts a draw from: the global if it is set,
      otherwise what the field holds. */
  function DrawBase(t: Cells, p: string): Option<Value> {
    if COUNTER in t.globals then Some(t.globals[COUNTER])
    else if ParseFieldPath(p).Ok? then ReadField(t.fields, ParseFieldPath(p).value)
    else None
  }

  /** A successful draw answers a number above its base, and leaves the global
      equal to what it answered. */
  lemma DrawIsFetchAndAdd(t: Cells, fts: seq<FieldTransform>, now: Time)
    requires IsDraw(fts) && ApplyTransforms(t, fts, now).Ok?
    ensures var (end, values) := ApplyTransforms(t, fts, now).value;
            && |values| == |fts|
            && values[|fts| - 1].Integer?
            && end.globals == t.globals[COUNTER := values[|fts| - 1]]
            && Numeric(DrawBase(t, fts[0].fieldPath))
            && values[|fts| - 1].i > Number(DrawBase(t, fts[0].fieldPath))
            && (|fts| == 3 ==> values[2].i == Number(DrawBase(t, fts[0].fieldPath)) + 1)
  {
    var p := fts[0].fieldPath;
    ParsedPathIsKeyPath(p);
    if |fts| == 3 {
      Steps3(t, fts, now);
      LoadStep(t, p, now);
      var t1 := ApplyTransform(t, fts[0], now).value.0;
      AddStep(t1, p, now);
      StoreStep(ApplyTransform(t1, fts[1], now).value.0, p, now);
    } else {
      Steps4(t, fts, now);
      Steps3(t, fts[..3], now);
      LoadStep(t, p, now);
      var t1 := ApplyTransform(t, fts[0], now).value.0;
      FloorStep(t1, p, fts[1].kind.operand.i, now);
      var t2 := ApplyTransform(t1, fts[1], now).value.0;
      AddStep(t2, p, now);
      StoreStep(ApplyTransform(t2, fts[2], now).value.0, p, now);
    }
  }

  lemma LoadStep(t: Cells, p: string, now: Time)
    requires ParseFieldPath(p).Ok?
    ensures var path := ParseFieldPath(p).value;
            var r := ApplyTransform(t, FieldTransform(p, LoadGlobal(COUNTER)), now);
            && r.Ok? && r.value.0.globals == t.globals
            && ReadField(r.value.0.fields, path)
               == (if DrawBase(t, p).Some? then DrawBase(t, p) else Some(Integer(0)))
  {
    var path := ParseFieldPath(p).value;
    ParsedPathIsKeyPath(p);
    ReadSetSame(t.fields, path, if DrawBase(t, p).Some? then DrawBase(t, p) else Some(Integer(0)));
  }

  lemma FloorStep(t: Cells, p: string, floor: int64, now: Time)
    requires ApplyTransform(t, FieldTransform(p, Maximum(Integer(floor))), now).Ok?
    ensures var path := ParseFieldPath(p).value;
            var r := ApplyTransform(t, FieldTransform(p, Maximum(Integer(floor))), now).value;
            var a := IntegerOperand(ReadField(t.fields, path));
            && r.0.globals == t.globals && a.Ok?
            && r.1.Integer? && r.1.i >= a.value
            && ReadField(r.0.fields, path) == Some(r.1)
  {
    ParsedPathIsKeyPath(p);
    var path := ParseFieldPath(p).value;
    ReadSetSame(t.fields, path, Some(ApplyTransform(t, FieldTransform(p, Maximum(Integer(floor))), now).value.1));
  }

  lemma AddStep(t: Cells, p: string, now: Time)
    requires ApplyTransform(t, FieldTransform(p, Increment(Integer(1))), now).Ok?
    ensures var path := ParseFieldPath(p).value;
            var r := ApplyTransform(t, FieldTransform(p, Increment(Integer(1))), now).value;
            var a := IntegerOperand(ReadField(t.fields, path));
            && r.0.globals == t.globals && a.Ok?
            && r.1.Integer? && r.1.i == a.value + 1
            && ReadField(r.0.fields, path) == Some(r.1)
  {
    ParsedPathIsKeyPath(p);
    var path := ParseFieldPath(p).value;
    ReadSetSame(t.fields, path, Some(ApplyTransform(t, FieldTransform(p, Increment(Integer(1))), now).value.1));
  }

  lemma StoreStep(t: Cells, p: string, now: Time)
    requires ApplyTransform(t, FieldTransform(p, StoreGlobal(COUNTER)), now).Ok?
    ensures var path := ParseFieldPath(p).value;
            var r := ApplyTransform(t, FieldTransform(p, StoreGlobal(COUNTER)), now).value;
            && ReadField(t.fields, path) == Some(r.1)
            && r.0.globals == t.globals[COUNTER := r.1]
  {
  }
}
