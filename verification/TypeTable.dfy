/** crates/bindgen/src/digest.rs: canon_type and canon_typedef, over the type table of a resolved
  * package set.
  */
module TypeTable {
  import opened Prelude
  import opened CanonicalJson

  type TypeId = nat

  datatype Primitive =
    | Bool | U8 | U16 | U32 | U64 | S8 | S16 | S32 | S64 | F32 | F64 | Char | String | ErrorContext

  datatype Type = Basic(prim: Primitive) | Id(id: TypeId)

  datatype Field = Field(name: string, ty: Type)
  datatype Case = Case(name: string, ty: Option<Type>)

  datatype Kind =
    | Alias(target: Type)
    | Record(fields: seq<Field>)
    | Tuple(types: seq<Type>)
    | Variant(cases: seq<Case>)
    | Enum(labels: seq<string>)
    | OptionOf(t: Type)
    | ResultOf(ok: Option<Type>, err: Option<Type>)
    | List(t: Type)
    | FixedLengthList(t: Type, length: nat)
    | MapOf(k: Type, v: Type)
    | Flags(labels: seq<string>)
    | Own(resource: TypeId)
    | Borrow(resource: TypeId)
    | FutureOf(element: Option<Type>)
    | StreamOf(element: Option<Type>)
    | Resource
    | Unknown

  type Table = map<TypeId, Kind>

  /** The canonical names of the resources a world mentions. */
  type Names = map<TypeId, string>

  // ---- well-founded tables ---------------------------------------------------------------------

  function TypesOf(fields: seq<Field>): (r: seq<Type>)
    ensures |r| == |fields| && forall i :: 0 <= i < |fields| ==> r[i] == fields[i].ty
  {
    seq(|fields|, i requires 0 <= i < |fields| => fields[i].ty)
  }

  function FieldNames(fields: seq<Field>): (r: seq<string>)
    ensures |r| == |fields| && forall i :: 0 <= i < |fields| ==> r[i] == fields[i].name
  {
    seq(|fields|, i requires 0 <= i < |fields| => fields[i].name)
  }

  function PayloadsOf(cases: seq<Case>): (r: seq<Option<Type>>)
    ensures |r| == |cases| && forall i :: 0 <= i < |cases| ==> r[i] == cases[i].ty
  {
    seq(|cases|, i requires 0 <= i < |cases| => cases[i].ty)
  }

  function CaseNames(cases: seq<Case>): (r: seq<string>)
    ensures |r| == |cases| && forall i :: 0 <= i < |cases| ==> r[i] == cases[i].name
  {
    seq(|cases|, i requires 0 <= i < |cases| => cases[i].name)
  }

  /** The height of a type: 0 for a basic type, one more than its entry's rank otherwise. */
  ghost function Height(ty: Type, rank: map<TypeId, nat>): nat {
    if ty.Id? && ty.id in rank then rank[ty.id] + 1 else 0
  }

  /** ty names an entry of the table whose height is at most b. */
  ghost predicate Under(table: Table, rank: map<TypeId, nat>, ty: Type, b: nat) {
    (ty.Id? ==> ty.id in table) && Height(ty, rank) <= b
  }

  ghost predicate AllUnder(table: Table, rank: map<TypeId, nat>, types: seq<Type>, b: nat) {
    forall i :: 0 <= i < |types| ==> Under(table, rank, types[i], b)
  }

  ghost predicate OptUnder(table: Table, rank: map<TypeId, nat>, t: Option<Type>, b: nat) {
    t.Some? ==> Under(table, rank, t.value, b)
  }

  ghost predicate OptsUnder(table: Table, rank: map<TypeId, nat>, types: seq<Option<Type>>, b: nat) {
    forall i :: 0 <= i < |types| ==> OptUnder(table, rank, types[i], b)
  }

  ghost predicate KindUnder(table: Table, rank: map<TypeId, nat>, kind: Kind, b: nat) {
    match kind
    case Alias(t) => Under(table, rank, t, b)
    case Record(fields) => AllUnder(table, rank, TypesOf(fields), b)
    case Tuple(types) => AllUnder(table, rank, types, b)
    case Variant(cases) => OptsUnder(table, rank, PayloadsOf(cases), b)
    case OptionOf(t) => Under(table, rank, t, b)
    case ResultOf(ok, err) => OptUnder(table, rank, ok, b) && OptUnder(table, rank, err, b)
    case List(t) => Under(table, rank, t, b)
    case FixedLengthList(t, _) => Under(table, rank, t, b)
    case MapOf(k, v) => Under(table, rank, k, b) && Under(table, rank, v, b)
    case FutureOf(t) => OptUnder(table, rank, t, b)
    case StreamOf(t) => OptUnder(table, rank, t, b)
    case _ => true
  }

  /** What a resolved package set guarantees: value types refer to entries of the table, without
    * cycles, as rank shows. */
  ghost predicate Acyclic(table: Table, rank: map<TypeId, nat>) {
    && rank.Keys == table.Keys
    && forall id :: id in table ==> KindUnder(table, rank, table[id], rank[id])
  }

  // ---- canon_type --------------------------------------------------------------------------------

  function PrimName(p: Primitive): string {
    match p
    case Bool => "bool"
    case U8 => "u8"
    case U16 => "u16"
    case U32 => "u32"
    case U64 => "u64"
    case S8 => "s8"
    case S16 => "s16"
    case S32 => "s32"
    case S64 => "s64"
    case F32 => "f32"
    case F64 => "f64"
    case Char => "char"
    case String => "string"
    case ErrorContext => "error-context"
  }

  /** An object whose first member says what kind of thing it describes. */
  function Tagged(kind: string, rest: seq<Member>): Json {
    JObj([Member("kind", JStr(kind))] + rest)
  }

  function Strings(labels: seq<string>): (r: seq<Json>)
    ensures |r| == |labels| && forall i :: 0 <= i < |labels| ==> r[i] == JStr(labels[i])
  {
    seq(|labels|, i requires 0 <= i < |labels| => JStr(labels[i]))
  }

  function Labelled(name: string, ty: Json): Json {
    JObj([Member("label", JStr(name)), Member("type", ty)])
  }

  /** Each label with its type. */
  function LabelledAll(labels: seq<string>, types: seq<Json>): (r: seq<Json>)
    ensures |labels| == |types| ==>
      |r| == |labels| && forall i :: 0 <= i < |labels| ==> r[i] == Labelled(labels[i], types[i])
  {
    if labels == [] || types == [] then []
    else [Labelled(labels[0], types[0])] + LabelledAll(labels[1..], types[1..])
  }

  function HandleJson(kind: string, resource: TypeId, names: Names): Option<Json> {
    if resource in names then Some(Tagged(kind, [Member("resource", JStr(names[resource]))]))
    else None
  }

  /** None where the source reports an error. */
  function CanonType(table: Table, names: Names, ty: Type, ghost rank: map<TypeId, nat>): Option<Json>
    requires Acyclic(table, rank) && (ty.Id? ==> ty.id in table)
    decreases Height(ty, rank), 0, 0
  {
    match ty
    case Basic(p) => Some(Tagged(PrimName(p), []))
    case Id(id) => CanonTypedef(table, names, id, rank)
  }

  function CanonTypedef(table: Table, names: Names, id: TypeId, ghost rank: map<TypeId, nat>): Option<Json>
    requires Acyclic(table, rank) && id in table
    decreases rank[id], 2, 0
  {
    ghost var b := rank[id];
    assert KindUnder(table, rank, table[id], b);
    match table[id]
    case Alias(t) => CanonType(table, names, t, rank)
    case Record(fields) =>
      var types := CanonTypes(table, names, TypesOf(fields), rank, b);
      if types.None? then None
      else Some(Tagged("record", [Member("fields", JArr(LabelledAll(FieldNames(fields), types.value)))]))
    case Tuple(elems) =>
      var types := CanonTypes(table, names, elems, rank, b);
      if types.None? then None
      else Some(Tagged("tuple", [Member("elements", JArr(types.value))]))
    case Variant(cases) =>
      var types := CanonOptions(table, names, PayloadsOf(cases), rank, b);
      if types.None? then None
      else Some(Tagged("variant", [Member("cases", JArr(LabelledAll(CaseNames(cases), types.value)))]))
    case Enum(labels) => Some(Tagged("enum", [Member("labels", JArr(Strings(labels)))]))
    case OptionOf(t) =>
      var ty := CanonType(table, names, t, rank);
      if ty.None? then None else Some(Tagged("option", [Member("type", ty.value)]))
    case ResultOf(ok, err) =>
      var okType := CanonOption(table, names, ok, rank, b);
      var errType := CanonOption(table, names, err, rank, b);
      if okType.None? || errType.None? then None
      else Some(Tagged("result", [Member("ok", okType.value), Member("err", errType.value)]))
    case List(t) =>
      var ty := CanonType(table, names, t, rank);
      if ty.None? then None else Some(Tagged("list", [Member("element", ty.value)]))
    case FixedLengthList(t, n) =>
      var ty := CanonType(table, names, t, rank);
      if ty.None? then None
      else Some(Tagged("list", [Member("element", ty.value), Member("length", JNum(n))]))
    case MapOf(k, v) =>
      var types := CanonTypes(table, names, [k, v], rank, b);
      if types.None? then None
      else
        var pair := Tagged("tuple", [Member("elements", JArr(types.value))]);
        Some(Tagged("list", [Member("element", pair)]))
    case Flags(labels) => Some(Tagged("flags", [Member("labels", JArr(Strings(labels)))]))
    case Own(rid) => HandleJson("own", rid, names)
    case Borrow(rid) => HandleJson("borrow", rid, names)
    case FutureOf(t) =>
      var ty := CanonOption(table, names, t, rank, b);
      if ty.None? then None else Some(Tagged("future", [Member("element", ty.value)]))
    case StreamOf(t) =>
      var ty := CanonOption(table, names, t, rank, b);
      if ty.None? then None else Some(Tagged("stream", [Member("element", ty.value)]))
    case Resource => None
    case Unknown => None
  }

  function CanonTypes(table: Table, names: Names, types: seq<Type>, ghost rank: map<TypeId, nat>, ghost b: nat)
    : Option<seq<Json>>
    requires Acyclic(table, rank) && AllUnder(table, rank, types, b)
    decreases b, 1, |types|
  {
    if types == [] then Some([])
    else
      assert Under(table, rank, types[0], b);
      var first := CanonType(table, names, types[0], rank);
      var rest := CanonTypes(table, names, types[1..], rank, b);
      if first.None? || rest.None? then None else Some([first.value] + rest.value)
  }

  /** An absent type is written as null. */
  function CanonOption(table: Table, names: Names, t: Option<Type>, ghost rank: map<TypeId, nat>, ghost b: nat)
    : Option<Json>
    requires Acyclic(table, rank) && OptUnder(table, rank, t, b)
    decreases b, 1, 0
  {
    if t.None? then Some(JNull) else CanonType(table, names, t.value, rank)
  }

  function CanonOptions(table: Table, names: Names, types: seq<Option<Type>>,
                        ghost rank: map<TypeId, nat>, ghost b: nat)
    : Option<seq<Json>>
    requires Acyclic(table, rank) && OptsUnder(table, rank, types, b)
    decreases b, 1, |types|
  {
    if types == [] then Some([])
    else
      assert OptUnder(table, rank, types[0], b);
      var first := CanonOption(table, names, types[0], rank, b);
      var rest := CanonOptions(table, names, types[1..], rank, b);
      if first.None? || rest.None? then None else Some([first.value] + rest.value)
  }
}
