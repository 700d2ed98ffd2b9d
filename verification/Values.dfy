// Typed document values, documents and the requests that write them.

module Values {
  import opened Wrappers

  const MIN_INT64 := -0x8000_0000_0000_0000
  const MAX_INT64 := 0x7fff_ffff_ffff_ffff

  type int64 = x: int | MIN_INT64 <= x <= MAX_INT64

  /** A protobuf timestamp, in nanoseconds. */
  type Time = int

  type Fields = map<string, Value>

  /** common.Value. Unset is the message whose oneof is empty; floating point
      payloads are kept as bit patterns because no operation computes on them. */
  datatype Value =
    | Unset
    | Null
    | Boolean(flag: bool)
    | Integer(i: int64)
    | Float(bits32: int)
    | Double(bits64: int)
    | Timestamp(time: Time)
    | String(text: string)
    | Bytes(bytes: seq<int>)
    | Array(items: seq<Value>)
    | Map(fields: Fields)
    | Reference(path: string)

  datatype Document = Document(name: string, fields: Fields, createTime: Time, updateTime: Time)

  /** The documents of one game session, by name. */
  type Docs = map<string, Document>

  function StringOf(v: Option<Value>): string {
    if v.Some? && v.value.String? then v.value.text else ""
  }

  function FieldsOf(v: Option<Value>): Fields {
    if v.Some? && v.value.Map? then v.value.fields else map[]
  }

  // ----- requests -----

  datatype Precondition =
    | Exists(exists_: bool)
    | UpdateTime(time: Option<Time>)
    | EmptyCondition

  datatype FieldTransform = FieldTransform(fieldPath: string, kind: TransformKind)

  datatype TransformKind =
    | LoadGlobal(name: string)
    | StoreGlobal(name: string)
    | ClearGlobal(name: string)
    | Increment(operand: Value)
    | Maximum(operand: Value)
    | Minimum(operand: Value)
    | SetServerValue(requestTime: bool)
    | EmptyTransform

  datatype WriteOp =
    | Update(name: string, fields: Option<Fields>, mask: Option<seq<string>>, current: Option<Precondition>)
    | Merge(name: string, fields: Option<Fields>)
    | Transform(name: string, transforms: seq<FieldTransform>)
    | Delete(name: string, current: Option<Precondition>)
    | EmptyOp

  datatype WriteResult =
    | UpdateResult
    | TransformResult(results: seq<Value>)
    | DeleteResult

  datatype Deferment = Deferment(name: string, writes: seq<WriteOp>)

  datatype DefermentOp =
    | UpdateDeferment(deferment: Option<Deferment>)
    | DeleteDeferment(name: string)
    | EmptyDeferment
}
