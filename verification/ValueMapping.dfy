/** harness/src/value-mapping.ts: toComponentValue and compareValue.
  *
  * Numerals in the test files are taken as the integers they spell.
  */
module ValueMapping {
  import opened Prelude
  import opened Semver
  import opened Doubles

  datatype IntKind = U8 | U16 | U32 | U64 | S8 | S16 | S32 | S64 | I32 | I64

  /** A float is given by its bits or, when expected, by a class of NaN patterns. */
  datatype FloatText = Bits(bits: nat) | NanCanonical | NanArithmetic

  datatype Value =
    | BoolV(b: bool) | IntV(kind: IntKind, n: int) | F32V(f: FloatText) | F64V(f: FloatText)
    | CharV(c: string) | StringV(s: string) | EnumV(enumLabel: string)
    | ListV(items: seq<Value>) | TupleV(items: seq<Value>) | RecordV(fields: seq<Field>)
    | VariantV(caseLabel: string, payload: Option<Value>) | OptionV(payload: Option<Value>)
    | ResultV(isOk: bool, payload: Option<Value>) | FlagsV(labels: seq<string>)

  datatype Field = Field(name: string, value: Value)

  datatype JsValue =
    | JUndefined | JNull | JBool(b: bool) | JNumber(x: Double) | JBigInt(n: int)
    | JString(s: string)
    | JArray(elems: seq<JsValue>) | JBytes(bytes: seq<nat>) | JObject(props: map<string, JsValue>)

  /** The bits that the engine writes for NaN. */
  datatype NanBits = NanBits(n32: nat, n64: nat)

  // ---- floats ----------------------------------------------------------------------------------

  predicate IsNan32(bits: nat) {
    bits / 0x80_0000 % 0x100 == 0xff && bits % 0x80_0000 != 0
  }

  predicate IsNan64(bits: nat) {
    bits / 0x10_0000_0000_0000 % 0x800 == 0x7ff && bits % 0x10_0000_0000_0000 != 0
  }

  predicate IsCanonicalNan32(bits: nat) {
    bits % 0x8000_0000 == 0x7fc0_0000
  }

  predicate IsArithmeticNan32(bits: nat) {
    bits / 0x80_0000 % 0x100 == 0xff && bits / 0x40_0000 % 2 == 1
  }

  predicate IsCanonicalNan64(bits: nat) {
    bits % 0x8000_0000_0000_0000 == 0x7ff8_0000_0000_0000
  }

  predicate IsArithmeticNan64(bits: nat) {
    bits / 0x10_0000_0000_0000 % 0x800 == 0x7ff && bits / 0x8_0000_0000_0000 % 2 == 1
  }

  const TWO32: nat := 0x1_0000_0000
  const TWO64: nat := 0x1_0000_0000_0000_0000

  /** `Number(bits) >>> 0`. */
  function Bits32(bits: nat): nat {
    Round(bits) % TWO32
  }

  /** `BigInt.asUintN(64, bits)`. */
  function Bits64(bits: nat): nat {
    bits % TWO64
  }

  function F32FromBits(bits: nat): JsValue {
    JNumber(Decode(F32, Bits32(bits)))
  }

  function F64FromBits(bits: nat): JsValue {
    JNumber(Decode(F64, Bits64(bits)))
  }

  /** setFloat32 and getUint32: rounds to single precision. */
  function F32ToBits(x: Double, nan: NanBits): nat {
    Encode(F32, x, nan.n32)
  }

  function F64ToBits(x: Double, nan: NanBits): nat {
    Encode(F64, x, nan.n64)
  }

  // ---- toComponentValue ------------------------------------------------------------------------

  predicate IsBig(kind: IntKind) {
    kind in {U64, S64, I64}
  }

  /** No class of NaN patterns stands where bits are needed. */
  predicate Convertible(v: Value)
    decreases v
  {
    match v
    case F32V(f) => f.Bits?
    case F64V(f) => f.Bits?
    case ListV(items) => AllConvertible(items)
    case TupleV(items) => AllConvertible(items)
    case RecordV(fields) => FieldsConvertible(fields)
    case VariantV(_, p) => p.Some? ==> Convertible(p.value)
    case OptionV(p) => p.Some? ==> Convertible(p.value)
    case ResultV(_, p) => p.Some? ==> Convertible(p.value)
    case _ => true
  }

  predicate AllConvertible(items: seq<Value>)
    decreases items
  {
    forall i :: 0 <= i < |items| ==> Convertible(items[i])
  }

  predicate FieldsConvertible(fields: seq<Field>)
    decreases fields
  {
    forall i :: 0 <= i < |fields| ==> Convertible(fields[i].value)
  }

  function Case(kind: string, value: JsValue): JsValue {
    JObject(map["kind" := JString(kind), "value" := value])
  }

  function To(v: Value): JsValue
    requires Convertible(v)
    decreases v
  {
    match v
    case BoolV(b) => JBool(b)
    case IntV(kind, n) => if IsBig(kind) then JBigInt(n) else JNumber(FromInt(n))
    case F32V(f) => F32FromBits(f.bits)
    case F64V(f) => F64FromBits(f.bits)
    case CharV(c) => JString(c)
    case StringV(s) => JString(s)
    case EnumV(l) => Case(l, JNull)
    case ListV(items) => JArray(ToAll(items))
    case TupleV(items) => JObject(TupleProps(items, |items|))
    case RecordV(fields) => JObject(RecordProps(fields, |fields|))
    case VariantV(l, p) => Case(l, ToOption(p))
    case OptionV(p) => if p.None? then Case("none", JNull) else Case("some", ToOption(p))
    case ResultV(isOk, p) => Case(if isOk then "ok" else "error", ToOption(p))
    case FlagsV(labels) => JObject(FlagProps(labels))
  }

  function ToOption(p: Option<Value>): JsValue
    requires p.Some? ==> Convertible(p.value)
    decreases p
  {
    if p.None? then JNull else To(p.value)
  }

  function ToAll(items: seq<Value>): (r: seq<JsValue>)
    requires AllConvertible(items)
    ensures |r| == |items| && forall i :: 0 <= i < |items| ==> r[i] == To(items[i])
    decreases items
  {
    if items == [] then [] else [To(items[0])] + ToAll(items[1..])
  }

  /** The first n elements under their positions. */
  function TupleProps(items: seq<Value>, n: nat): map<string, JsValue>
    requires n <= |items| && AllConvertible(items)
    decreases items, n
  {
    if n == 0 then map[] else TupleProps(items, n - 1)[Digits(n - 1) := To(items[n - 1])]
  }

  /** The first n fields; a repeated label keeps the later value. */
  function RecordProps(fields: seq<Field>, n: nat): map<string, JsValue>
    requires n <= |fields| && FieldsConvertible(fields)
    decreases fields, n
  {
    if n == 0 then map[] else RecordProps(fields, n - 1)[fields[n - 1].name := To(fields[n - 1].value)]
  }

  function FlagProps(labels: seq<string>): map<string, JsValue> {
    map l | l in labels :: JBool(true)
  }

  /** None where the source throws, on a NaN class in place of bits. */
  method ToComponentValue(v: Value) returns (r: Option<JsValue>)
    ensures r == if Convertible(v) then Some(To(v)) else None
    decreases v, 1
  {
    hide F32FromBits, F64FromBits, FromInt, Case, TupleProps, RecordProps, FlagProps;
    match v
    case BoolV(b) => return Some(JBool(b));
    case IntV(kind, n) => return Some(if IsBig(kind) then JBigInt(n) else JNumber(FromInt(n)));
    case F32V(f) => return if f.Bits? then Some(F32FromBits(f.bits)) else None;
    case F64V(f) => return if f.Bits? then Some(F64FromBits(f.bits)) else None;
    case CharV(c) => return Some(JString(c));
    case StringV(s) => return Some(JString(s));
    case EnumV(l) => return Some(Case(l, JNull));
    case ListV(items) =>
      var elems := ConvertItems(items);
      return if elems.None? then None else Some(JArray(elems.value));
    case TupleV(items) =>
      r := ConvertTuple(items);
    case RecordV(fields) =>
      r := ConvertRecord(fields);
    case VariantV(l, p) =>
      var payload := ConvertOption(p);
      return if payload.None? then None else Some(Case(l, payload.value));
    case OptionV(p) =>
      if p.None? { return Some(Case("none", JNull)); }
      var payload := ConvertOption(p);
      return if payload.None? then None else Some(Case("some", payload.value));
    case ResultV(isOk, p) =>
      var payload := ConvertOption(p);
      return if payload.None? then None else Some(Case(if isOk then "ok" else "error", payload.value));
    case FlagsV(labels) =>
      r := ConvertFlags(labels);
  }

  method ConvertTuple(items: seq<Value>) returns (r: Option<JsValue>)
    ensures r == if AllConvertible(items) then Some(JObject(TupleProps(items, |items|))) else None
    decreases items, 1
  {
    var elems := ConvertItems(items);
    if elems.None? { return None; }
    hide To, Digits;
    var record: map<string, JsValue> := map[];
    for i := 0 to |items|
      invariant record == TupleProps(items, i)
    {
      record := record[Digits(i) := elems.value[i]];
    }
    return Some(JObject(record));
  }

  method ConvertRecord(fields: seq<Field>) returns (r: Option<JsValue>)
    ensures r == if FieldsConvertible(fields) then Some(JObject(RecordProps(fields, |fields|))) else None
    decreases fields
  {
    var record: map<string, JsValue> := map[];
    for i := 0 to |fields|
      invariant forall k :: 0 <= k < i ==> Convertible(fields[k].value)
      invariant FieldsConvertible(fields) ==> record == RecordProps(fields, i)
    {
      var value := ToComponentValue(fields[i].value);
      if value.None? { return None; }
      record := record[fields[i].name := value.value];
    }
    return Some(JObject(record));
  }

  method ConvertFlags(labels: seq<string>) returns (r: Option<JsValue>)
    ensures r == Some(JObject(FlagProps(labels)))
  {
    var record: map<string, JsValue> := map[];
    for i := 0 to |labels|
      invariant record == FlagProps(labels[..i])
    {
      record := record[labels[i] := JBool(true)];
    }
    assert labels[..|labels|] == labels;
    return Some(JObject(record));
  }

  method ConvertOption(p: Option<Value>) returns (r: Option<JsValue>)
    ensures r == if p.Some? && !Convertible(p.value) then None else Some(ToOption(p))
    decreases p, 0
  {
    if p.None? { return Some(JNull); }
    r := ToComponentValue(p.value);
  }

  method ConvertItems(items: seq<Value>) returns (r: Option<seq<JsValue>>)
    ensures r == if AllConvertible(items) then Some(ToAll(items)) else None
    decreases items, 0
  {
    var out: seq<JsValue> := [];
    for i := 0 to |items|
      invariant |out| == i
      invariant forall k :: 0 <= k < i ==> Convertible(items[k]) && out[k] == To(items[k])
    {
      var value := ToComponentValue(items[i]);
      if value.None? { return None; }
      out := out + [value.value];
    }
    assert out == ToAll(items);
    return Some(out);
  }

  // ---- compareValue ----------------------------------------------------------------------------

  predicate IsObject(j: JsValue) {
    j.JObject? || j.JArray? || j.JBytes?
  }

  /** The elements of an array; a list of bytes may be lifted as a byte array. */
  function Elements(j: JsValue): Option<seq<JsValue>> {
    match j
    case JArray(elems) => Some(elems)
    case JBytes(bytes) => Some(seq(|bytes|, i requires 0 <= i < |bytes| => JNumber(FromInt(bytes[i]))))
    case _ => None
  }

  /** Property access on an object; arrays have their positions. */
  function Prop(j: JsValue, key: string): JsValue {
    if j.JObject? then (if key in j.props then j.props[key] else JUndefined)
    else
      var elems := Elements(j);
      if elems.Some? && IsNumeric(key) && Numeral(key) < |elems.value| && Digits(Numeral(key)) == key
      then elems.value[Numeral(key)] else JUndefined
  }

  function Numeral(key: string): nat
    requires IsNumeric(key)
  {
    Semver.Value(key)
  }

  predicate FloatMatches32(f: FloatText, j: JsValue, nan: NanBits) {
    && j.JNumber?
    && var bits := F32ToBits(j.x, nan);
       match f
       case NanCanonical => IsCanonicalNan32(bits)
       case NanArithmetic => IsArithmeticNan32(bits)
       case Bits(want) => bits == Bits32(want)
  }

  predicate FloatMatches64(f: FloatText, j: JsValue, nan: NanBits) {
    && j.JNumber?
    && var bits := F64ToBits(j.x, nan);
       match f
       case NanCanonical => IsCanonicalNan64(bits)
       case NanArithmetic => IsArithmeticNan64(bits)
       case Bits(want) => bits == Bits64(want)
  }

  predicate Truthy(j: JsValue) {
    match j
    case JUndefined => false
    case JNull => false
    case JBool(b) => b
    case JNumber(x) => !x.NaN? && !(x.Fin? && x.k == 0)
    case JBigInt(n) => n != 0
    case JString(s) => s != ""
    case _ => true
  }

  function Keys(j: JsValue): set<string> {
    match j
    case JObject(props) => props.Keys
    case JArray(elems) => set i | 0 <= i < |elems| :: Digits(i)
    case JBytes(bytes) => set i | 0 <= i < |bytes| :: Digits(i)
    case _ => {}
  }

  predicate Matches(e: Value, j: JsValue, nan: NanBits)
    decreases e
  {
    match e
    case BoolV(b) => j == JBool(b)
    case IntV(kind, n) => if IsBig(kind) then j == JBigInt(n) else j.JNumber? && Same(j.x, FromInt(n))
    case F32V(f) => FloatMatches32(f, j, nan)
    case F64V(f) => FloatMatches64(f, j, nan)
    case CharV(c) => j == JString(c)
    case StringV(s) => j == JString(s)
    case EnumV(l) => IsObject(j) && Prop(j, "kind") == JString(l)
    case ListV(items) => Elements(j).Some? && AllMatch(items, Elements(j).value, nan)
    case TupleV(items) =>
      IsObject(j) && forall i :: 0 <= i < |items| ==> Matches(items[i], Prop(j, Digits(i)), nan)
    case RecordV(fields) =>
      IsObject(j) && forall i :: 0 <= i < |fields| ==> Matches(fields[i].value, Prop(j, fields[i].name), nan)
    case VariantV(l, p) =>
      IsObject(j) && Prop(j, "kind") == JString(l) && (p.Some? ==> Matches(p.value, Prop(j, "value"), nan))
    case OptionV(p) =>
      IsObject(j) && Prop(j, "kind") == JString(if p.None? then "none" else "some")
      && (p.Some? ==> Matches(p.value, Prop(j, "value"), nan))
    case ResultV(isOk, p) =>
      IsObject(j) && Prop(j, "kind") == JString(if isOk then "ok" else "error")
      && (p.Some? ==> Matches(p.value, Prop(j, "value"), nan))
    case FlagsV(labels) =>
      IsObject(j) && (set l | l in labels) == (set k | k in Keys(j) && Truthy(Prop(j, k)))
  }

  predicate AllMatch(items: seq<Value>, elems: seq<JsValue>, nan: NanBits)
    decreases items
  {
    |items| == |elems| && forall i :: 0 <= i < |items| ==> Matches(items[i], elems[i], nan)
  }

  /** Whether compareValue finds nothing to report. */
  method CompareValue(e: Value, j: JsValue, nan: NanBits) returns (ok: bool)
    ensures ok == Matches(e, j, nan)
    decreases e, 1
  {
    hide FloatMatches32, FloatMatches64, FromInt, Elements, Keys, Truthy, Digits;
    match e
    case ListV(items) =>
      var arr := Elements(j);
      if arr.None? { return false; }
      ok := CompareItems(items, arr.value, nan);
    case TupleV(items) =>
      if !IsObject(j) { return false; }
      ok := CompareTuple(items, j, nan);
    case RecordV(fields) =>
      if !IsObject(j) { return false; }
      ok := CompareRecord(fields, j, nan);
    case VariantV(l, p) =>
      ok := CompareCase(l, p, j, nan);
    case OptionV(p) =>
      ok := CompareCase(if p.None? then "none" else "some", p, j, nan);
    case ResultV(isOk, p) =>
      ok := CompareCase(if isOk then "ok" else "error", p, j, nan);
    case _ => ok := Matches(e, j, nan);
  }

  method CompareItems(items: seq<Value>, elems: seq<JsValue>, nan: NanBits) returns (ok: bool)
    ensures ok == AllMatch(items, elems, nan)
    decreases items, 0
  {
    if |elems| != |items| { return false; }
    for i := 0 to |items|
      invariant forall k :: 0 <= k < i ==> Matches(items[k], elems[k], nan)
    {
      var m := CompareValue(items[i], elems[i], nan);
      if !m { return false; }
    }
    return true;
  }

  method CompareTuple(items: seq<Value>, j: JsValue, nan: NanBits) returns (ok: bool)
    ensures ok == forall i :: 0 <= i < |items| ==> Matches(items[i], Prop(j, Digits(i)), nan)
    decreases items, 0
  {
    hide Prop, Digits;
    for i := 0 to |items|
      invariant forall k :: 0 <= k < i ==> Matches(items[k], Prop(j, Digits(k)), nan)
    {
      var m := CompareValue(items[i], Prop(j, Digits(i)), nan);
      if !m { return false; }
    }
    return true;
  }

  method CompareRecord(fields: seq<Field>, j: JsValue, nan: NanBits) returns (ok: bool)
    ensures ok == forall i :: 0 <= i < |fields| ==> Matches(fields[i].value, Prop(j, fields[i].name), nan)
    decreases fields, 0
  {
    hide Prop;
    for i := 0 to |fields|
      invariant forall k :: 0 <= k < i ==> Matches(fields[k].value, Prop(j, fields[k].name), nan)
    {
      var m := CompareValue(fields[i].value, Prop(j, fields[i].name), nan);
      if !m { return false; }
    }
    return true;
  }

  method CompareCase(kind: string, p: Option<Value>, j: JsValue, nan: NanBits) returns (ok: bool)
    ensures ok == (IsObject(j) && Prop(j, "kind") == JString(kind) && (p.Some? ==> Matches(p.value, Prop(j, "value"), nan)))
    decreases p, 0
  {
    hide Prop;
    if !IsObject(j) { return false; }
    if Prop(j, "kind") != JString(kind) { return false; }
    if p.None? { return true; }
    ok := CompareValue(p.value, Prop(j, "value"), nan);
  }

  // ---- types and the values they denote --------------------------------------------------------

  datatype Type =
    | BoolT | IntT(kind: IntKind) | F32T | F64T | CharT | StringT | EnumT
    | ListT(t: Type) | TupleT(elems: seq<Type>) | RecordT(members: seq<FieldType>)
    | VariantT(cases: seq<CaseType>) | OptionT(t: Type)
    | ResultT(ok: Option<Type>, err: Option<Type>) | FlagsT

  datatype FieldType = FieldType(name: string, t: Type)
  datatype CaseType = CaseType(caseLabel: string, t: Option<Type>)

  /** The position of a label among the fields, or their number if it is not there. */
  function Position(fields: seq<Field>, name: string): (i: nat)
    ensures i <= |fields|
    ensures i < |fields| ==> fields[i].name == name
    ensures i == |fields| ==> forall k :: 0 <= k < |fields| ==> fields[k].name != name
  {
    if fields == [] then 0 else if fields[0].name == name then 0 else 1 + Position(fields[1..], name)
  }

  ghost predicate DistinctLabels(fields: seq<Field>) {
    forall i, j :: 0 <= i < j < |fields| ==> fields[i].name != fields[j].name
  }

  /** What the variant says of a label: its payload type, if the label is one of its cases. */
  function CaseFor(cases: seq<CaseType>, l: string): Option<Option<Type>> {
    if cases == [] then None else if cases[0].caseLabel == l then Some(cases[0].t) else CaseFor(cases[1..], l)
  }

  /** v is a value of type t; the fields of a record come in any order.  Integers of the kinds that
    * become numbers are far below 2^53. */
  ghost predicate HasType(v: Value, t: Type)
    decreases v
  {
    match v
    case BoolV(_) => t.BoolT?
    case IntV(kind, n) => t == IntT(kind) && (IsBig(kind) || -TWO53 < n < TWO53)
    case F32V(f) => t.F32T? && (f.Bits? ==> f.bits < TWO32)
    case F64V(f) => t.F64T? && (f.Bits? ==> f.bits < TWO64)
    case CharV(_) => t.CharT?
    case StringV(_) => t.StringT?
    case EnumV(_) => t.EnumT?
    case ListV(items) => t.ListT? && forall i :: 0 <= i < |items| ==> HasType(items[i], t.t)
    case TupleV(items) =>
      t.TupleT? && |t.elems| == |items| && forall i :: 0 <= i < |items| ==> HasType(items[i], t.elems[i])
    case RecordV(fields) =>
      t.RecordT? && |t.members| == |fields| && DistinctLabels(fields)
      && forall i :: 0 <= i < |fields| ==> FieldTyped(fields, i, t.members)
    case VariantV(l, p) =>
      t.VariantT? && CaseFor(t.cases, l).Some?
      && var payload := CaseFor(t.cases, l).value;
         p.Some? == payload.Some? && (p.Some? ==> HasType(p.value, payload.value))
    case OptionV(p) => t.OptionT? && (p.Some? ==> HasType(p.value, t.t))
    case ResultV(isOk, p) =>
      t.ResultT? && var side := if isOk then t.ok else t.err;
        p.Some? == side.Some? && (p.Some? ==> HasType(p.value, side.value))
    case FlagsV(_) => t.FlagsT?
  }

  function TypeFor(members: seq<FieldType>, name: string): Option<Type> {
    if members == [] then None else if members[0].name == name then Some(members[0].t) else TypeFor(members[1..], name)
  }

  ghost predicate FieldTyped(fields: seq<Field>, i: nat, members: seq<FieldType>)
    requires i < |fields|
    decreases fields, i
  {
    TypeFor(members, fields[i].name).Some? && HasType(fields[i].value, TypeFor(members, fields[i].name).value)
  }

  /** Every expected float is a number given by its bits, or a class of NaN patterns. */
  ghost predicate Definite(e: Value)
    decreases e
  {
    match e
    case F32V(f) => f.Bits? ==> !IsNan32(f.bits)
    case F64V(f) => f.Bits? ==> !IsNan64(f.bits)
    case ListV(items) => forall i :: 0 <= i < |items| ==> Definite(items[i])
    case TupleV(items) => forall i :: 0 <= i < |items| ==> Definite(items[i])
    case RecordV(fields) => forall i :: 0 <= i < |fields| ==> Definite(fields[i].value)
    case VariantV(_, p) => p.Some? ==> Definite(p.value)
    case OptionV(p) => p.Some? ==> Definite(p.value)
    case ResultV(_, p) => p.Some? ==> Definite(p.value)
    case _ => true
  }

  /** The value v is the one expected, or one of them when e has NaN classes: records have the same
    * value for each label, flags the same set of labels. */
  ghost predicate Denotes(e: Value, v: Value)
    decreases e
  {
    match e
    case F32V(f) => v.F32V? && v.f.Bits? && if f.Bits? then f.bits == v.f.bits else IsNan32(v.f.bits)
    case F64V(f) => v.F64V? && v.f.Bits? && if f.Bits? then f.bits == v.f.bits else IsNan64(v.f.bits)
    case ListV(items) =>
      v.ListV? && |items| == |v.items| && forall i :: 0 <= i < |items| ==> Denotes(items[i], v.items[i])
    case TupleV(items) =>
      v.TupleV? && |items| == |v.items| && forall i :: 0 <= i < |items| ==> Denotes(items[i], v.items[i])
    case RecordV(fields) =>
      v.RecordV? && |fields| == |v.fields|
      && forall i :: 0 <= i < |fields| ==>
           var k := Position(v.fields, fields[i].name);
           k < |v.fields| && Denotes(fields[i].value, v.fields[k].value)
    case VariantV(l, p) =>
      v.VariantV? && l == v.caseLabel && p.Some? == v.payload.Some? && (p.Some? ==> Denotes(p.value, v.payload.value))
    case OptionV(p) => v.OptionV? && p.Some? == v.payload.Some? && (p.Some? ==> Denotes(p.value, v.payload.value))
    case ResultV(isOk, p) =>
      v.ResultV? && isOk == v.isOk && p.Some? == v.payload.Some? && (p.Some? ==> Denotes(p.value, v.payload.value))
    case FlagsV(labels) => v.FlagsV? && (set l | l in labels) == (set l | l in v.labels)
    case _ => e == v
  }

  /** An engine that writes NaN with the canonical pattern. */
  predicate CanonicalEngine(nan: NanBits) {
    IsCanonicalNan32(nan.n32) && IsCanonicalNan64(nan.n64)
  }

  lemma CanonicalIsNan32(bits: nat)
    requires IsCanonicalNan32(bits)
    ensures IsNan32(bits) && IsArithmeticNan32(bits)
  {
    var h := bits / 0x8000_0000;
    assert bits == h * 0x8000_0000 + 0x7fc0_0000;
    assert bits / 0x80_0000 == 0x100 * h + 0xff;
    assert bits / 0x40_0000 == 0x200 * h + 0x1ff;
  }

  lemma CanonicalIsNan64(bits: nat)
    requires IsCanonicalNan64(bits)
    ensures IsNan64(bits) && IsArithmeticNan64(bits)
  {
    var h := bits / 0x8000_0000_0000_0000;
    assert bits == h * 0x8000_0000_0000_0000 + 0x7ff8_0000_0000_0000;
    assert bits / 0x10_0000_0000_0000 == 0x800 * h + 0x7ff;
    assert bits / 0x8_0000_0000_0000 == 0x1000 * h + 0xfff;
  }

  lemma {:induction false} TuplePropsAt(items: seq<Value>, n: nat, i: nat)
    requires i < n <= |items| && AllConvertible(items)
    ensures var props := TupleProps(items, n); Digits(i) in props && props[Digits(i)] == To(items[i])
  {
    DigitsAreNumeric(i);
    DigitsAreNumeric(n - 1);
    if i < n - 1 { TuplePropsAt(items, n - 1, i); }
  }

  lemma {:induction false} RecordPropsAt(fields: seq<Field>, n: nat, i: nat)
    requires i < n <= |fields| && FieldsConvertible(fields) && DistinctLabels(fields)
    ensures var props := RecordProps(fields, n); fields[i].name in props && props[fields[i].name] == To(fields[i].value)
  {
    if i < n - 1 { RecordPropsAt(fields, n - 1, i); }
  }

  lemma CaseProps(kind: string, value: JsValue)
    ensures Prop(Case(kind, value), "kind") == JString(kind) && Prop(Case(kind, value), "value") == value
  {
    assert "kind"[0] != "value"[0];
  }

  // ---- a match means the same value ------------------------------------------------------------

  /** compareValue accepts the converted value exactly when it is the value expected. */
  ghost predicate Faithful(e: Value, v: Value, nan: NanBits)
    requires Convertible(v)
  {
    Matches(e, To(v), nan) <==> Denotes(e, v)
  }

  lemma NanPatterns32(bits: nat)
    requires bits < TWO32
    ensures Decode(F32, bits).NaN? <==> IsNan32(bits)
  {
    hide Significand, Shift, Pow2;
    var b := if bits >= 0x8000_0000 then bits - 0x8000_0000 else bits;
    assert Decode(F32, bits).NaN? <==> b > 0x7f80_0000;
    NanBits32(bits / 0x80_0000, bits % 0x80_0000);
  }

  lemma NanBits32(q: nat, r: nat)
    requires q < 0x200 && r < 0x80_0000
    ensures q % 0x100 == 0xff && r != 0 <==> (if q >= 0x100 then q - 0x100 else q) * 0x80_0000 + r > 0x7f80_0000
  {}

  lemma NanPatterns64(bits: nat)
    requires bits < TWO64
    ensures Decode(F64, bits).NaN? <==> IsNan64(bits)
  {
    hide Significand, Shift, Pow2;
    var b := if bits >= 0x8000_0000_0000_0000 then bits - 0x8000_0000_0000_0000 else bits;
    assert Decode(F64, bits).NaN? <==> b > 0x7ff0_0000_0000_0000;
    NanBits64(bits / 0x10_0000_0000_0000, bits % 0x10_0000_0000_0000);
  }

  lemma NanBits64(q: nat, r: nat)
    requires q < 0x1000 && r < 0x10_0000_0000_0000
    ensures q % 0x800 == 0x7ff && r != 0
       <==> (if q >= 0x800 then q - 0x800 else q) * 0x10_0000_0000_0000 + r > 0x7ff0_0000_0000_0000
  {}

  /** Bits of a type's width come back as they were, NaN patterns as the engine's. */
  lemma Bits32Back(bits: nat, nan: NanBits)
    requires bits < TWO32
    ensures Bits32(bits) == bits
    ensures F32ToBits(Decode(F32, bits), nan) == if IsNan32(bits) then nan.n32 else bits
  {
    hide Encode, Decode, Round, IsNan32;
    SmallIsExact(bits);
    EncodeDecode(F32, bits, nan.n32);
    NanPatterns32(bits);
  }

  lemma Bits64Back(bits: nat, nan: NanBits)
    requires bits < TWO64
    ensures Bits64(bits) == bits
    ensures F64ToBits(Decode(F64, bits), nan) == if IsNan64(bits) then nan.n64 else bits
  {
    hide Encode, Decode, IsNan64;
    EncodeDecode(F64, bits, nan.n64);
    NanPatterns64(bits);
  }

  lemma SinglesMatch(f: FloatText, bits: nat, nan: NanBits)
    requires bits < TWO32 && (f.Bits? ==> f.bits < TWO32 && !IsNan32(f.bits)) && IsCanonicalNan32(nan.n32)
    ensures FloatMatches32(f, F32FromBits(bits), nan) <==> if f.Bits? then f.bits == bits else IsNan32(bits)
  {
    CanonicalIsNan32(nan.n32);
    hide IsNan32, IsArithmeticNan32, Bits32, F32ToBits, Decode, IsCanonicalNan32;
    NanClasses32(bits);
    Bits32Back(bits, nan);
    if f.Bits? { Bits32Back(f.bits, nan); }
  }

  lemma DoublesMatch(f: FloatText, bits: nat, nan: NanBits)
    requires bits < TWO64 && (f.Bits? ==> f.bits < TWO64 && !IsNan64(f.bits)) && IsCanonicalNan64(nan.n64)
    ensures FloatMatches64(f, F64FromBits(bits), nan) <==> if f.Bits? then f.bits == bits else IsNan64(bits)
  {
    CanonicalIsNan64(nan.n64);
    hide IsNan64, IsArithmeticNan64, Bits64, F64ToBits, Decode, IsCanonicalNan64;
    NanClasses64(bits);
    Bits64Back(bits, nan);
    if f.Bits? { Bits64Back(f.bits, nan); }
  }

  lemma FloatsMatch(e: Value, v: Value, t: Type, nan: NanBits)
    requires (e.F32V? && v.F32V?) || (e.F64V? && v.F64V?)
    requires HasType(e, t) && HasType(v, t) && Definite(e) && Convertible(v) && CanonicalEngine(nan)
    ensures Faithful(e, v, nan)
  {
    hide IsNan32, IsNan64, FloatMatches32, FloatMatches64, F32FromBits, F64FromBits;
    if e.F32V? { SinglesMatch(e.f, v.f.bits, nan); } else { DoublesMatch(e.f, v.f.bits, nan); }
  }

  lemma NanClasses32(bits: nat)
    ensures IsCanonicalNan32(bits) || IsArithmeticNan32(bits) ==> IsNan32(bits)
  {
    if IsCanonicalNan32(bits) { CanonicalIsNan32(bits); }
    if IsArithmeticNan32(bits) {
      assert bits == bits / 0x40_0000 * 0x40_0000 + bits % 0x40_0000;
    }
  }

  lemma NanClasses64(bits: nat)
    ensures IsCanonicalNan64(bits) || IsArithmeticNan64(bits) ==> IsNan64(bits)
  {
    if IsCanonicalNan64(bits) { CanonicalIsNan64(bits); }
    if IsArithmeticNan64(bits) {
      assert bits == bits / 0x8_0000_0000_0000 * 0x8_0000_0000_0000 + bits % 0x8_0000_0000_0000;
    }
  }

  ghost function LabelSet(fields: seq<Field>): set<string> {
    set i | 0 <= i < |fields| :: fields[i].name
  }

  ghost function MemberSet(members: seq<FieldType>): set<string> {
    set i | 0 <= i < |members| :: members[i].name
  }

  lemma {:induction false} LabelCount(fields: seq<Field>)
    requires DistinctLabels(fields)
    ensures |LabelSet(fields)| == |fields|
  {
    if fields == [] {
      assert LabelSet(fields) == {};
    } else {
      var last := |fields| - 1;
      LabelCount(fields[..last]);
      assert LabelSet(fields) == LabelSet(fields[..last]) + {fields[last].name};
      assert fields[last].name !in LabelSet(fields[..last]);
    }
  }

  lemma {:induction false} MemberCount(members: seq<FieldType>)
    ensures |MemberSet(members)| <= |members|
  {
    if members == [] {
      assert MemberSet(members) == {};
    } else {
      var last := |members| - 1;
      MemberCount(members[..last]);
      assert MemberSet(members) == MemberSet(members[..last]) + {members[last].name};
    }
  }

  lemma {:induction false} TypeForIsMember(members: seq<FieldType>, name: string)
    requires TypeFor(members, name).Some?
    ensures name in MemberSet(members)
  {
    if members[0].name != name {
      TypeForIsMember(members[1..], name);
      var i :| 0 <= i < |members[1..]| && members[1..][i].name == name;
      assert members[i + 1].name == name;
    } else {
      assert members[0].name in MemberSet(members);
    }
  }

  lemma SubsetOfSameSize(a: set<string>, b: set<string>)
    requires a <= b && |a| >= |b|
    ensures a == b
  {
    forall x | x in b ensures x in a {
      if x !in a { SubsetCount(a, b - {x}); }
    }
  }

  ghost predicate Labelled(fields: seq<Field>, members: seq<FieldType>) {
    && DistinctLabels(fields) && |fields| == |members|
    && forall i :: 0 <= i < |fields| ==> TypeFor(members, fields[i].name).Some?
  }

  /** Two records of one type have the same labels. */
  lemma SameLabels(a: seq<Field>, b: seq<Field>, members: seq<FieldType>, i: nat)
    requires Labelled(a, members) && Labelled(b, members) && i < |a|
    ensures Position(b, a[i].name) < |b|
  {
    TypeForIsMember(members, a[i].name);
    forall x | x in LabelSet(b) ensures x in MemberSet(members) {
      var k :| 0 <= k < |b| && b[k].name == x;
      TypeForIsMember(members, x);
    }
    LabelCount(b);
    MemberCount(members);
    SubsetOfSameSize(LabelSet(b), MemberSet(members));
    var k :| 0 <= k < |b| && b[k].name == a[i].name;
  }

  lemma RecordProp(fields: seq<Field>, name: string)
    requires FieldsConvertible(fields) && DistinctLabels(fields) && Position(fields, name) < |fields|
    ensures Prop(To(RecordV(fields)), name) == To(fields[Position(fields, name)].value)
  {
    RecordPropsAt(fields, |fields|, Position(fields, name));
  }

  lemma TupleProp(items: seq<Value>, i: nat)
    requires AllConvertible(items) && i < |items|
    ensures Prop(To(TupleV(items)), Digits(i)) == To(items[i])
  {
    TuplePropsAt(items, |items|, i);
  }

  lemma FlagsMatch(a: seq<string>, b: seq<string>, nan: NanBits)
    ensures Faithful(FlagsV(a), FlagsV(b), nan)
  {
    var j := JObject(FlagProps(b));
    assert (set k | k in Keys(j) && Truthy(Prop(j, k))) == (set l | l in b);
  }

  /** A type has values of one shape only. */
  predicate SameForm(e: Value, v: Value) {
    match e
    case BoolV(_) => v.BoolV?
    case IntV(kind, _) => v.IntV? && v.kind == kind
    case F32V(_) => v.F32V?
    case F64V(_) => v.F64V?
    case CharV(_) => v.CharV?
    case StringV(_) => v.StringV?
    case EnumV(_) => v.EnumV?
    case ListV(_) => v.ListV?
    case TupleV(items) => v.TupleV? && |items| == |v.items|
    case RecordV(fields) => v.RecordV? && |fields| == |v.fields|
    case VariantV(_, _) => v.VariantV?
    case OptionV(_) => v.OptionV?
    case ResultV(_, _) => v.ResultV?
    case FlagsV(_) => v.FlagsV?
  }

  lemma TypedAlike(e: Value, v: Value, t: Type)
    requires HasType(e, t) && HasType(v, t)
    ensures SameForm(e, v)
  {}

  lemma RecordTyped(fields: seq<Field>, t: Type)
    requires HasType(RecordV(fields), t)
    ensures t.RecordT? && Labelled(fields, t.members)
    ensures forall i :: 0 <= i < |fields| ==> HasType(fields[i].value, TypeFor(t.members, fields[i].name).value)
  {
    hide TypeFor;
    forall i | 0 <= i < |fields| ensures TypeFor(t.members, fields[i].name).Some?
      && HasType(fields[i].value, TypeFor(t.members, fields[i].name).value)
    {
      assert FieldTyped(fields, i, t.members);
    }
  }

  lemma {:induction false} ItemsFaithful(e: seq<Value>, v: seq<Value>, t: Type, nan: NanBits)
    requires |e| == |v| && (forall i :: 0 <= i < |e| ==> HasType(e[i], t) && HasType(v[i], t) && Definite(e[i]))
    requires AllConvertible(v) && CanonicalEngine(nan)
    ensures forall i :: 0 <= i < |e| ==> Faithful(e[i], v[i], nan)
    decreases e, 0
  {
    hide Faithful, HasType, Definite, Convertible, CanonicalEngine;
    forall i | 0 <= i < |e| ensures Faithful(e[i], v[i], nan) {
      MatchIff(e[i], v[i], t, nan);
    }
  }

  lemma {:induction false} ListsFaithful(e: Value, v: Value, t: Type, nan: NanBits)
    requires e.ListV? && v.ListV? && HasType(e, t) && HasType(v, t)
    requires Definite(e) && Convertible(v) && CanonicalEngine(nan)
    ensures Faithful(e, v, nan)
    decreases e, 0
  {
    if |e.items| == |v.items| {
      ItemsFaithful(e.items, v.items, t.t, nan);
      assert forall i :: 0 <= i < |e.items| ==> Faithful(e.items[i], v.items[i], nan);
    }
  }

  lemma {:induction false} TuplesFaithful(e: Value, v: Value, t: Type, nan: NanBits)
    requires e.TupleV? && v.TupleV? && HasType(e, t) && HasType(v, t)
    requires Definite(e) && Convertible(v) && CanonicalEngine(nan)
    ensures Faithful(e, v, nan)
    decreases e, 0
  {
    var items := v.items;
    forall i | 0 <= i < |e.items|
      ensures Matches(e.items[i], Prop(To(v), Digits(i)), nan) <==> Denotes(e.items[i], items[i])
    {
      TupleProp(items, i);
      MatchIff(e.items[i], items[i], t.elems[i], nan);
    }
    hide Prop, Digits, HasType, Definite;
    assert IsObject(To(v));
  }

  lemma {:induction false} RecordsFaithful(e: Value, v: Value, t: Type, nan: NanBits)
    requires e.RecordV? && v.RecordV? && HasType(e, t) && HasType(v, t)
    requires Definite(e) && Convertible(v) && CanonicalEngine(nan)
    ensures Faithful(e, v, nan)
    decreases e, 0
  {
    var a, b := e.fields, v.fields;
    RecordTyped(a, t);
    RecordTyped(b, t);
    forall i | 0 <= i < |a|
      ensures Position(b, a[i].name) < |b|
      ensures Matches(a[i].value, Prop(To(v), a[i].name), nan)
         <==> Denotes(a[i].value, b[Position(b, a[i].name)].value)
    {
      SameLabels(a, b, t.members, i);
      RecordProp(b, a[i].name);
      MatchIff(a[i].value, b[Position(b, a[i].name)].value, TypeFor(t.members, a[i].name).value, nan);
    }
    hide Prop, Position, HasType, Definite, TypeFor;
    assert IsObject(To(v));
  }

  /** The cases of variants, options and results: the same kind, and the same payload. */
  lemma {:induction false} PayloadsFaithful(
    kind: string, e: Option<Value>, kind2: string, v: Option<Value>, t: Option<Type>, nan: NanBits)
    requires kind == kind2 ==> e.Some? == v.Some?
    requires kind == kind2 && e.Some? ==> t.Some? && HasType(e.value, t.value) && HasType(v.value, t.value)
    requires (e.Some? ==> Definite(e.value)) && (v.Some? ==> Convertible(v.value)) && CanonicalEngine(nan)
    ensures var j := Case(kind2, ToOption(v));
      (Prop(j, "kind") == JString(kind) && (e.Some? ==> Matches(e.value, Prop(j, "value"), nan)))
      <==> (kind == kind2 && e.Some? == v.Some? && (e.Some? ==> Denotes(e.value, v.value)))
    decreases e, 0
  {
    CaseProps(kind2, ToOption(v));
    if kind == kind2 && e.Some? { MatchIff(e.value, v.value, t.value, nan); }
  }

  /** For values of one type, to any depth, compareValue accepts the converted value exactly when it
    * is the value expected. */
  lemma {:induction false} MatchIff(e: Value, v: Value, t: Type, nan: NanBits)
    requires HasType(e, t) && HasType(v, t) && Definite(e) && Convertible(v) && CanonicalEngine(nan)
    ensures Faithful(e, v, nan)
    decreases e, 1
  {
    TypedAlike(e, v, t);
    match e
    case IntV(kind, n) => if !IsBig(kind) { IntsSame(v.n, n); }
    case F32V(_) => FloatsMatch(e, v, t, nan);
    case F64V(_) => FloatsMatch(e, v, t, nan);
    case EnumV(_) => CaseProps(v.enumLabel, JNull);
    case ListV(_) => ListsFaithful(e, v, t, nan);
    case TupleV(_) => TuplesFaithful(e, v, t, nan);
    case RecordV(_) => RecordsFaithful(e, v, t, nan);
    case VariantV(l, p) =>
      PayloadsFaithful(l, p, v.caseLabel, v.payload, CaseFor(t.cases, l).value, nan);
    case OptionV(p) => OptionsFaithful(e, v, t, nan);
    case ResultV(isOk, p) =>
      PayloadsFaithful(if isOk then "ok" else "error", p, if v.isOk then "ok" else "error", v.payload,
                       if isOk then t.ok else t.err, nan);
    case FlagsV(labels) => FlagsMatch(labels, v.labels, nan);
    case _ =>
  }

  lemma {:induction false} OptionsFaithful(e: Value, v: Value, t: Type, nan: NanBits)
    requires e.OptionV? && v.OptionV? && HasType(e, t) && HasType(v, t)
    requires Definite(e) && Convertible(v) && CanonicalEngine(nan)
    ensures Faithful(e, v, nan)
    decreases e, 0
  {
    assert "none"[0] != "some"[0];
    var k1, k2 := if e.payload.None? then "none" else "some", if v.payload.None? then "none" else "some";
    PayloadsFaithful(k1, e.payload, k2, v.payload, Some(t.t), nan);
  }

  // ---- host values -----------------------------------------------------------------------------

  /** Small integers that become numbers. */
  predicate IsSmall(v: Value) {
    v.IntV? && !IsBig(v.kind) && -TWO53 < v.n < TWO53
  }

  /** A list of small integers may be lifted as an array or as bytes: bytes are accepted exactly if
    * they are the integers, in order. */
  lemma ListAgainstBytes(items: seq<Value>, bytes: seq<nat>, nan: NanBits)
    requires (forall i :: 0 <= i < |items| ==> IsSmall(items[i])) && forall i :: 0 <= i < |bytes| ==> bytes[i] < 0x100
    ensures Matches(ListV(items), JBytes(bytes), nan) <==>
      |items| == |bytes| && forall i :: 0 <= i < |items| ==> items[i].IntV? && items[i].n == bytes[i]
  {
    hide FromInt, Same;
    var elems := Elements(JBytes(bytes)).value;
    if |items| == |bytes| {
      forall i | 0 <= i < |items| ensures Matches(items[i], elems[i], nan) <==> items[i].n == bytes[i] {
        assert elems[i] == JNumber(FromInt(bytes[i]));
        IntsSame(bytes[i], items[i].n);
      }
    }
  }

  /** A match is only ever with a host value of the kind that the type asks for. */
  lemma MatchKinds(e: Value, j: JsValue, nan: NanBits)
    requires Matches(e, j, nan)
    ensures
      match e
      case BoolV(_) => j.JBool?
      case IntV(kind, _) => if kind in {U64, S64, I64} then j.JBigInt? else j.JNumber?
      case F32V(_) => j.JNumber?
      case F64V(_) => j.JNumber?
      case CharV(_) => j.JString?
      case StringV(_) => j.JString?
      case ListV(_) => j.JArray? || j.JBytes?
      case _ => j.JObject? || j.JArray? || j.JBytes?
  {
    hide FloatMatches32, FloatMatches64, Prop, Keys, Truthy, Same;
    NumbersOnly(e, j, nan);
  }

  lemma NumbersOnly(e: Value, j: JsValue, nan: NanBits)
    ensures e.F32V? && FloatMatches32(e.f, j, nan) ==> j.JNumber?
    ensures e.F64V? && FloatMatches64(e.f, j, nan) ==> j.JNumber?
  {
    hide F32ToBits, F64ToBits;
  }

  /** The shapes of host values: cases carry their label and payload, options and results their own
    * labels, tuples are read by position, records by label, and of flags the given ones are true. */
  lemma HostShapes(v: Value)
    requires Convertible(v)
    ensures
      var j := To(v);
      match v
      case EnumV(l) => Prop(j, "kind") == JString(l) && Prop(j, "value") == JNull
      case VariantV(l, p) => Prop(j, "kind") == JString(l) && Prop(j, "value") == ToOption(p)
      case OptionV(p) =>
        Prop(j, "kind") == JString(if p.Some? then "some" else "none") && Prop(j, "value") == ToOption(p)
      case ResultV(isOk, p) =>
        Prop(j, "kind") == JString(if isOk then "ok" else "error") && Prop(j, "value") == ToOption(p)
      case TupleV(items) => AllConvertible(items) && forall i :: 0 <= i < |items| ==> Prop(j, Digits(i)) == To(items[i])
      case RecordV(fields) =>
        FieldsConvertible(fields) && (DistinctLabels(fields) ==> forall i :: 0 <= i < |fields| ==> Prop(j, fields[i].name) == To(fields[i].value))
      case FlagsV(labels) => forall l :: Prop(j, l) == if l in labels then JBool(true) else JUndefined
      case ListV(items) =>
        AllConvertible(items) && j.JArray? && |j.elems| == |items| && forall i :: 0 <= i < |items| ==> j.elems[i] == To(items[i])
      case _ => true
  {
    hide Digits;
    match v
    case EnumV(l) => CaseProps(l, JNull);
    case VariantV(l, p) => CaseProps(l, ToOption(p));
    case OptionV(p) => CaseProps(if p.Some? then "some" else "none", ToOption(p));
    case ResultV(isOk, p) => CaseProps(if isOk then "ok" else "error", ToOption(p));
    case TupleV(items) =>
      forall i | 0 <= i < |items| ensures Prop(To(v), Digits(i)) == To(items[i]) { TupleProp(items, i); }
    case RecordV(fields) =>
      if DistinctLabels(fields) {
        forall i | 0 <= i < |fields| ensures Prop(To(v), fields[i].name) == To(fields[i].value) {
          RecordPropsAt(fields, |fields|, i);
        }
      }
    case _ =>
  }
}
