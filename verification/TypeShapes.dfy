/** What a canonical type document means: the shape of a type with aliases followed, table ids gone,
  * maps read as lists of pairs and resources known by name.  Two documents are equal exactly when the
  * shapes are.
  */
module TypeShapes {
  import opened Prelude
  import opened CanonicalJson
  import opened StableSort
  import opened TypeTable

  datatype Shape =
    | SBasic(prim: Primitive)
    | SRecord(labels: seq<string>, types: seq<Shape>)
    | STuple(types: seq<Shape>)
    | SVariant(labels: seq<string>, payloads: seq<Option<Shape>>)
    | SEnum(labels: seq<string>)
    | SOption(t: Shape)
    | SResult(ok: Option<Shape>, err: Option<Shape>)
    | SList(t: Shape)
    | SFixedList(t: Shape, length: nat)
    | SFlags(labels: seq<string>)
    | SOwn(resource: string)
    | SBorrow(resource: string)
    | SFuture(element: Option<Shape>)
    | SStream(element: Option<Shape>)

  // ---- unfolding -------------------------------------------------------------------------------

  ghost function Unfold(table: Table, names: Names, ty: Type, rank: map<TypeId, nat>): Option<Shape>
    requires Acyclic(table, rank) && (ty.Id? ==> ty.id in table)
    decreases Height(ty, rank), 0, 0
  {
    match ty
    case Basic(p) => Some(SBasic(p))
    case Id(id) => UnfoldKind(table, names, table[id], rank, rank[id])
  }

  ghost function UnfoldKind(table: Table, names: Names, kind: Kind, rank: map<TypeId, nat>, b: nat): Option<Shape>
    requires Acyclic(table, rank) && KindUnder(table, rank, kind, b)
    decreases b, 2, 0
  {
    match kind
    case Alias(t) => Unfold(table, names, t, rank)
    case Record(fields) =>
      var ts := UnfoldAll(table, names, TypesOf(fields), rank, b);
      if ts.None? then None else Some(SRecord(FieldNames(fields), ts.value))
    case Tuple(elems) =>
      var ts := UnfoldAll(table, names, elems, rank, b);
      if ts.None? then None else Some(STuple(ts.value))
    case Variant(cases) =>
      var ts := UnfoldOptions(table, names, PayloadsOf(cases), rank, b);
      if ts.None? then None else Some(SVariant(CaseNames(cases), ts.value))
    case Enum(labels) => Some(SEnum(labels))
    case OptionOf(t) =>
      var s := Unfold(table, names, t, rank);
      if s.None? then None else Some(SOption(s.value))
    case ResultOf(ok, err) =>
      var okShape := UnfoldOption(table, names, ok, rank, b);
      var errShape := UnfoldOption(table, names, err, rank, b);
      if okShape.None? || errShape.None? then None else Some(SResult(okShape.value, errShape.value))
    case List(t) =>
      var s := Unfold(table, names, t, rank);
      if s.None? then None else Some(SList(s.value))
    case FixedLengthList(t, n) =>
      var s := Unfold(table, names, t, rank);
      if s.None? then None else Some(SFixedList(s.value, n))
    case MapOf(k, v) =>
      var ts := UnfoldAll(table, names, [k, v], rank, b);
      if ts.None? then None else Some(SList(STuple(ts.value)))
    case Flags(labels) => Some(SFlags(labels))
    case Own(rid) => if rid in names then Some(SOwn(names[rid])) else None
    case Borrow(rid) => if rid in names then Some(SBorrow(names[rid])) else None
    case FutureOf(t) =>
      var s := UnfoldOption(table, names, t, rank, b);
      if s.None? then None else Some(SFuture(s.value))
    case StreamOf(t) =>
      var s := UnfoldOption(table, names, t, rank, b);
      if s.None? then None else Some(SStream(s.value))
    case Resource => None
    case Unknown => None
  }

  ghost function UnfoldAll(table: Table, names: Names, types: seq<Type>, rank: map<TypeId, nat>, b: nat)
    : (r: Option<seq<Shape>>)
    requires Acyclic(table, rank) && AllUnder(table, rank, types, b)
    ensures r.Some? ==> |r.value| == |types|
    decreases b, 1, |types|
  {
    if types == [] then Some([])
    else
      assert Under(table, rank, types[0], b);
      var first := Unfold(table, names, types[0], rank);
      var rest := UnfoldAll(table, names, types[1..], rank, b);
      if first.None? || rest.None? then None else Some([first.value] + rest.value)
  }

  /** An absent type unfolds to none. */
  ghost function UnfoldOption(table: Table, names: Names, t: Option<Type>, rank: map<TypeId, nat>, b: nat): Option<Option<Shape>>
    requires Acyclic(table, rank) && OptUnder(table, rank, t, b)
    decreases b, 1, 0
  {
    if t.None? then Some(None)
    else
      var s := Unfold(table, names, t.value, rank);
      if s.None? then None else Some(s)
  }

  ghost function UnfoldOptions(table: Table, names: Names, types: seq<Option<Type>>, rank: map<TypeId, nat>, b: nat)
    : (r: Option<seq<Option<Shape>>>)
    requires Acyclic(table, rank) && OptsUnder(table, rank, types, b)
    ensures r.Some? ==> |r.value| == |types|
    decreases b, 1, |types|
  {
    if types == [] then Some([])
    else
      assert OptUnder(table, rank, types[0], b);
      var first := UnfoldOption(table, names, types[0], rank, b);
      var rest := UnfoldOptions(table, names, types[1..], rank, b);
      if first.None? || rest.None? then None else Some([first.value] + rest.value)
  }

  // ---- the document of a shape -----------------------------------------------------------------

  function KindName(s: Shape): string {
    match s
    case SBasic(p) => PrimName(p)
    case SRecord(_, _) => "record"
    case STuple(_) => "tuple"
    case SVariant(_, _) => "variant"
    case SEnum(_) => "enum"
    case SOption(_) => "option"
    case SResult(_, _) => "result"
    case SList(_) => "list"
    case SFixedList(_, _) => "list"
    case SFlags(_) => "flags"
    case SOwn(_) => "own"
    case SBorrow(_) => "borrow"
    case SFuture(_) => "future"
    case SStream(_) => "stream"
  }

  /** A shape whose lists of labels fit: what unfolding yields. */
  ghost predicate Fits(s: Shape)
    decreases s
  {
    match s
    case SRecord(labels, types) => |labels| == |types| && forall i :: 0 <= i < |types| ==> Fits(types[i])
    case STuple(types) => forall i :: 0 <= i < |types| ==> Fits(types[i])
    case SVariant(labels, payloads) =>
      |labels| == |payloads| && forall i :: 0 <= i < |payloads| ==> payloads[i].Some? ==> Fits(payloads[i].value)
    case SOption(t) => Fits(t)
    case SResult(ok, err) => (ok.Some? ==> Fits(ok.value)) && (err.Some? ==> Fits(err.value))
    case SList(t) => Fits(t)
    case SFixedList(t, _) => Fits(t)
    case SFuture(t) => t.Some? ==> Fits(t.value)
    case SStream(t) => t.Some? ==> Fits(t.value)
    case _ => true
  }

  ghost function Encode(s: Shape): Json
    requires Fits(s)
    decreases s
  {
    Tagged(KindName(s), Rest(s))
  }

  /** The members after the kind. */
  ghost function Rest(s: Shape): seq<Member>
    requires Fits(s)
    decreases s, 0
  {
    match s
    case SBasic(_) => []
    case SRecord(labels, types) => [Member("fields", JArr(LabelledAll(labels, EncodeAll(types))))]
    case STuple(types) => [Member("elements", JArr(EncodeAll(types)))]
    case SVariant(labels, payloads) => [Member("cases", JArr(LabelledAll(labels, EncodeOptions(payloads))))]
    case SEnum(labels) => [Member("labels", JArr(Strings(labels)))]
    case SOption(t) => [Member("type", Encode(t))]
    case SResult(ok, err) => [Member("ok", EncodeOption(ok)), Member("err", EncodeOption(err))]
    case SList(t) => [Member("element", Encode(t))]
    case SFixedList(t, n) => [Member("element", Encode(t)), Member("length", JNum(n))]
    case SFlags(labels) => [Member("labels", JArr(Strings(labels)))]
    case SOwn(r) => [Member("resource", JStr(r))]
    case SBorrow(r) => [Member("resource", JStr(r))]
    case SFuture(t) => [Member("element", EncodeOption(t))]
    case SStream(t) => [Member("element", EncodeOption(t))]
  }

  ghost function EncodeOption(s: Option<Shape>): Json
    requires s.Some? ==> Fits(s.value)
    decreases s
  {
    if s.None? then JNull else Encode(s.value)
  }

  ghost function EncodeAll(s: seq<Shape>): (r: seq<Json>)
    requires forall i :: 0 <= i < |s| ==> Fits(s[i])
    ensures |r| == |s| && forall i :: 0 <= i < |s| ==> r[i] == Encode(s[i])
    decreases s
  {
    if s == [] then [] else [Encode(s[0])] + EncodeAll(s[1..])
  }

  ghost function EncodeOptions(s: seq<Option<Shape>>): (r: seq<Json>)
    requires forall i :: 0 <= i < |s| ==> s[i].Some? ==> Fits(s[i].value)
    ensures |r| == |s| && forall i :: 0 <= i < |s| ==> r[i] == EncodeOption(s[i])
    decreases s
  {
    if s == [] then [] else [EncodeOption(s[0])] + EncodeOptions(s[1..])
  }

  // ---- canon_type writes the shape down --------------------------------------------------------

  lemma {:induction false} CanonTypeIsShape(table: Table, names: Names, ty: Type, rank: map<TypeId, nat>)
    requires Acyclic(table, rank) && (ty.Id? ==> ty.id in table)
    ensures var s := Unfold(table, names, ty, rank); s.Some? ==> Fits(s.value)
    ensures CanonType(table, names, ty, rank)
         == var s := Unfold(table, names, ty, rank); if s.None? then None else Some(Encode(s.value))
    decreases Height(ty, rank), 0, 0
  {
    match ty
    case Basic(p) =>
    case Id(id) => CanonTypedefIsShape(table, names, id, rank);
  }

  lemma EntryUnder(table: Table, rank: map<TypeId, nat>, id: TypeId)
    requires Acyclic(table, rank) && id in table
    ensures id in rank && KindUnder(table, rank, table[id], rank[id])
  {}

  lemma EncodeTagged(s: Shape)
    requires Fits(s)
    ensures Encode(s) == Tagged(KindName(s), Rest(s))
  {}

  /** canon_typedef writes down the shape of the entry, or fails with it. */
  ghost predicate EntryWritten(table: Table, names: Names, id: TypeId, rank: map<TypeId, nat>)
    requires Acyclic(table, rank) && id in table
  {
    var s := UnfoldKind(table, names, table[id], rank, rank[id]);
    && (s.Some? ==> Fits(s.value))
    && CanonTypedef(table, names, id, rank) == if s.None? then None else Some(Encode(s.value))
  }

  lemma {:induction false} CanonTypedefIsShape(table: Table, names: Names, id: TypeId, rank: map<TypeId, nat>)
    requires Acyclic(table, rank) && id in table
    ensures EntryWritten(table, names, id, rank)
    decreases rank[id], 2, 1
  {
    EntryUnder(table, rank, id);
    hide Acyclic, EntryWritten;
    match table[id]
    case Record(_) => RecordIsShape(table, names, id, rank);
    case Tuple(_) => TupleIsShape(table, names, id, rank);
    case Variant(_) => VariantIsShape(table, names, id, rank);
    case MapOf(_, _) => MapIsShape(table, names, id, rank);
    case ResultOf(_, _) => OptionalIsShape(table, names, id, rank);
    case FutureOf(_) => OptionalIsShape(table, names, id, rank);
    case StreamOf(_) => OptionalIsShape(table, names, id, rank);
    case _ => SingleIsShape(table, names, id, rank);
  }

  lemma {:induction false} SingleIsShape(table: Table, names: Names, id: TypeId, rank: map<TypeId, nat>)
    requires Acyclic(table, rank) && id in table
    requires var k := table[id]; !k.Record? && !k.Tuple? && !k.Variant? && !k.MapOf?
    requires var k := table[id]; !k.ResultOf? && !k.FutureOf? && !k.StreamOf?
    ensures EntryWritten(table, names, id, rank)
    decreases rank[id], 2, 0
  {
    EntryUnder(table, rank, id);
    hide Acyclic, Tagged;
    var s := UnfoldKind(table, names, table[id], rank, rank[id]);
    match table[id] {
      case Alias(t) => CanonTypeIsShape(table, names, t, rank);
      case OptionOf(t) => CanonTypeIsShape(table, names, t, rank);
      case List(t) => CanonTypeIsShape(table, names, t, rank);
      case FixedLengthList(t, _) => CanonTypeIsShape(table, names, t, rank);
      case _ =>
    }
    if s.Some? { EncodeTagged(s.value); }
  }

  lemma {:induction false} RecordIsShape(table: Table, names: Names, id: TypeId, rank: map<TypeId, nat>)
    requires Acyclic(table, rank) && id in table && table[id].Record?
    ensures EntryWritten(table, names, id, rank)
    decreases rank[id], 2, 0
  {
    EntryUnder(table, rank, id);
    hide Acyclic, Tagged;
    var s := UnfoldKind(table, names, table[id], rank, rank[id]);
    CanonTypesAreShapes(table, names, TypesOf(table[id].fields), rank, rank[id]);
    if s.Some? { EncodeTagged(s.value); }
  }

  lemma {:induction false} TupleIsShape(table: Table, names: Names, id: TypeId, rank: map<TypeId, nat>)
    requires Acyclic(table, rank) && id in table && table[id].Tuple?
    ensures EntryWritten(table, names, id, rank)
    decreases rank[id], 2, 0
  {
    EntryUnder(table, rank, id);
    hide Acyclic, Tagged;
    var s := UnfoldKind(table, names, table[id], rank, rank[id]);
    CanonTypesAreShapes(table, names, table[id].types, rank, rank[id]);
    if s.Some? { EncodeTagged(s.value); }
  }

  lemma {:induction false} VariantIsShape(table: Table, names: Names, id: TypeId, rank: map<TypeId, nat>)
    requires Acyclic(table, rank) && id in table && table[id].Variant?
    ensures EntryWritten(table, names, id, rank)
    decreases rank[id], 2, 0
  {
    EntryUnder(table, rank, id);
    hide Acyclic, Tagged;
    var s := UnfoldKind(table, names, table[id], rank, rank[id]);
    CanonOptionsAreShapes(table, names, PayloadsOf(table[id].cases), rank, rank[id]);
    if s.Some? { EncodeTagged(s.value); }
  }

  /** A map is written down as a list of pairs. */
  lemma {:induction false} MapIsShape(table: Table, names: Names, id: TypeId, rank: map<TypeId, nat>)
    requires Acyclic(table, rank) && id in table && table[id].MapOf?
    ensures EntryWritten(table, names, id, rank)
    decreases rank[id], 2, 0
  {
    EntryUnder(table, rank, id);
    hide Acyclic, Tagged;
    var s := UnfoldKind(table, names, table[id], rank, rank[id]);
    CanonTypesAreShapes(table, names, [table[id].k, table[id].v], rank, rank[id]);
    if s.Some? {
      EncodeTagged(s.value.t);
      EncodeTagged(s.value);
    }
  }

  lemma {:induction false} OptionalIsShape(table: Table, names: Names, id: TypeId, rank: map<TypeId, nat>)
    requires Acyclic(table, rank) && id in table
    requires var k := table[id]; k.ResultOf? || k.FutureOf? || k.StreamOf?
    ensures EntryWritten(table, names, id, rank)
    decreases rank[id], 2, 0
  {
    EntryUnder(table, rank, id);
    hide Acyclic, Tagged;
    var s := UnfoldKind(table, names, table[id], rank, rank[id]);
    var b := rank[id];
    match table[id] {
      case ResultOf(ok, err) =>
        CanonOptionIsShape(table, names, ok, rank, b);
        CanonOptionIsShape(table, names, err, rank, b);
      case FutureOf(t) => CanonOptionIsShape(table, names, t, rank, b);
      case StreamOf(t) => CanonOptionIsShape(table, names, t, rank, b);
    }
    if s.Some? { EncodeTagged(s.value); }
  }

  lemma {:induction false} CanonTypesAreShapes(table: Table, names: Names, types: seq<Type>, rank: map<TypeId, nat>, b: nat)
    requires Acyclic(table, rank) && AllUnder(table, rank, types, b)
    ensures var s := UnfoldAll(table, names, types, rank, b);
      s.Some? ==> forall i :: 0 <= i < |s.value| ==> Fits(s.value[i])
    ensures CanonTypes(table, names, types, rank, b)
         == var s := UnfoldAll(table, names, types, rank, b); if s.None? then None else Some(EncodeAll(s.value))
    decreases b, 1, |types|
  {
    if types != [] {
      assert Under(table, rank, types[0], b);
      CanonTypeIsShape(table, names, types[0], rank);
      CanonTypesAreShapes(table, names, types[1..], rank, b);
    }
  }

  lemma {:induction false} CanonOptionIsShape(table: Table, names: Names, t: Option<Type>, rank: map<TypeId, nat>, b: nat)
    requires Acyclic(table, rank) && OptUnder(table, rank, t, b)
    ensures var s := UnfoldOption(table, names, t, rank, b); s.Some? && s.value.Some? ==> Fits(s.value.value)
    ensures CanonOption(table, names, t, rank, b)
         == var s := UnfoldOption(table, names, t, rank, b); if s.None? then None else Some(EncodeOption(s.value))
    decreases b, 1, 0
  {
    hide Acyclic;
    if t.Some? { CanonTypeIsShape(table, names, t.value, rank); }
  }

  lemma {:induction false} CanonOptionsAreShapes(table: Table, names: Names, types: seq<Option<Type>>, rank: map<TypeId, nat>, b: nat)
    requires Acyclic(table, rank) && OptsUnder(table, rank, types, b)
    ensures var s := UnfoldOptions(table, names, types, rank, b);
      s.Some? ==> forall i :: 0 <= i < |s.value| ==> s.value[i].Some? ==> Fits(s.value[i].value)
    ensures CanonOptions(table, names, types, rank, b)
         == var s := UnfoldOptions(table, names, types, rank, b); if s.None? then None else Some(EncodeOptions(s.value))
    decreases b, 1, |types|
  {
    if types != [] {
      assert OptUnder(table, rank, types[0], b);
      CanonOptionIsShape(table, names, types[0], rank, b);
      CanonOptionsAreShapes(table, names, types[1..], rank, b);
    }
  }

  // ---- the document determines the shape -------------------------------------------------------

  /** Reads the kind back from its name; the two list kinds share one. */
  function KindNo(name: string): nat {
    if name == "bool" then 0 else if name == "u8" then 1 else if name == "u16" then 2
    else if name == "u32" then 3 else if name == "u64" then 4 else if name == "s8" then 5
    else if name == "s16" then 6 else if name == "s32" then 7 else if name == "s64" then 8
    else if name == "f32" then 9 else if name == "f64" then 10 else if name == "char" then 11
    else if name == "string" then 12 else if name == "error-context" then 13
    else if name == "record" then 14 else if name == "tuple" then 15 else if name == "variant" then 16
    else if name == "enum" then 17 else if name == "option" then 18 else if name == "result" then 19
    else if name == "list" then 20 else if name == "flags" then 21 else if name == "own" then 22
    else if name == "borrow" then 23 else if name == "future" then 24 else 25
  }

  function PrimNo(p: Primitive): nat {
    match p
    case Bool => 0
    case U8 => 1
    case U16 => 2
    case U32 => 3
    case U64 => 4
    case S8 => 5
    case S16 => 6
    case S32 => 7
    case S64 => 8
    case F32 => 9
    case F64 => 10
    case Char => 11
    case String => 12
    case ErrorContext => 13
  }

  function ShapeNo(s: Shape): nat {
    match s
    case SBasic(p) => PrimNo(p)
    case SRecord(_, _) => 14
    case STuple(_) => 15
    case SVariant(_, _) => 16
    case SEnum(_) => 17
    case SOption(_) => 18
    case SResult(_, _) => 19
    case SList(_) => 20
    case SFixedList(_, _) => 20
    case SFlags(_) => 21
    case SOwn(_) => 22
    case SBorrow(_) => 23
    case SFuture(_) => 24
    case SStream(_) => 25
  }

  lemma PrimNameReadsBack(p: Primitive)
    ensures KindNo(PrimName(p)) == PrimNo(p)
  {}

  lemma KindNameReadsBack(s: Shape)
    ensures KindNo(KindName(s)) == ShapeNo(s)
  {
    if s.SBasic? { PrimNameReadsBack(s.prim); }
    hide PrimName, PrimNo;
  }

  /** The documents of a and b differ, if at all, in the order of object members. */
  ghost predicate DocsAlike(a: Shape, b: Shape) {
    Fits(a) && Fits(b) && SortKeys(Encode(a)) == SortKeys(Encode(b))
  }

  ghost predicate OptionDocsAlike(a: Option<Shape>, b: Option<Shape>) {
    && (a.Some? ==> Fits(a.value)) && (b.Some? ==> Fits(b.value))
    && SortKeys(EncodeOption(a)) == SortKeys(EncodeOption(b))
  }

  lemma FoundIn(s: Shape, k: string)
    requires Fits(s)
    ensures Get(SortKeys(Encode(s)), "kind") == Some(JStr(KindName(s)))
    ensures k != "kind" ==> Get(SortKeys(Encode(s)), k) == SortFound(Find(Rest(s), k))
  {
    EncodeTagged(s);
    hide Encode, KindName, Rest, Tagged, Get;
    GetSorted(Encode(s), "kind");
    GetSorted(Encode(s), k);
    TaggedFind(KindName(s), Rest(s), k);
  }

  lemma SameFound(a: Shape, b: Shape, k: string)
    requires DocsAlike(a, b)
    ensures ShapeNo(a) == ShapeNo(b)
    ensures k != "kind" ==> SortFound(Find(Rest(a), k)) == SortFound(Find(Rest(b), k))
  {
    hide KindNo, KindName, ShapeNo, Rest, Encode, SortKeys, Get, Find, SortFound;
    KindNameReadsBack(a);
    KindNameReadsBack(b);
    FoundIn(a, k);
    FoundIn(b, k);
  }

  /** Shapes whose documents have one more member than the kind, under the same key. */
  lemma OneMember(a: Shape, b: Shape, k: string, v: Json, w: Json)
    requires DocsAlike(a, b) && k != "kind"
    requires Rest(a) == [Member(k, v)] && Rest(b) == [Member(k, w)]
    ensures SortKeys(v) == SortKeys(w)
  {
    hide SortKeys, DocsAlike, Rest, ShapeNo;
    SameFound(a, b, k);
    assert Find([Member(k, v)], k) == Some(v);
    assert Find([Member(k, w)], k) == Some(w);
  }

  lemma SameKind(a: Shape, b: Shape)
    requires DocsAlike(a, b)
    ensures ShapeNo(a) == ShapeNo(b)
  {
    hide ShapeNo, DocsAlike;
    SameFound(a, b, "");
  }

  lemma TaggedFind(kind: string, rest: seq<Member>, k: string)
    ensures Get(Tagged(kind, rest), "kind") == Some(JStr(kind))
    ensures k != "kind" ==> Get(Tagged(kind, rest), k) == Find(rest, k)
  {
    var m := Member("kind", JStr(kind));
    assert ([m] + rest)[1..] == rest;
  }

  lemma LabelledSameLabel(n1: string, j1: Json, n2: string, j2: Json)
    requires SortKeys(Labelled(n1, j1)) == SortKeys(Labelled(n2, j2))
    ensures n1 == n2
  {
    hide SortKeys, Get, Labelled;
    LabelledFind(n1, j1);
    LabelledFind(n2, j2);
  }

  lemma LabelledSameType(n1: string, j1: Json, n2: string, j2: Json)
    requires SortKeys(Labelled(n1, j1)) == SortKeys(Labelled(n2, j2))
    ensures SortKeys(j1) == SortKeys(j2)
  {
    hide SortKeys, Get, Labelled;
    LabelledFind(n1, j1);
    LabelledFind(n2, j2);
  }

  lemma LabelledFind(n: string, j: Json)
    ensures Get(SortKeys(Labelled(n, j)), "label") == Some(JStr(n))
    ensures Get(SortKeys(Labelled(n, j)), "type") == Some(SortKeys(j))
  {
    FindInPair("label", JStr(n), "type", j);
    GetSorted(Labelled(n, j), "label");
    GetSorted(Labelled(n, j), "type");
  }

  lemma FindInPair(k1: string, v1: Json, k2: string, v2: Json)
    ensures Find([Member(k1, v1), Member(k2, v2)], k1) == Some(v1)
    ensures k1 != k2 ==> Find([Member(k1, v1), Member(k2, v2)], k2) == Some(v2)
  {
    assert [Member(k1, v1), Member(k2, v2)][1..] == [Member(k2, v2)];
  }

  lemma SortedCons(j: Json, rest: seq<Json>)
    ensures SortElems([j] + rest) == [SortKeys(j)] + SortElems(rest)
  {
    hide SortKeys;
    assert ([j] + rest)[1..] == rest;
  }

  lemma {:induction false} LabelledAllInjective(l1: seq<string>, t1: seq<Json>, l2: seq<string>, t2: seq<Json>)
    requires |l1| == |t1| && |l2| == |t2|
    requires SortElems(LabelledAll(l1, t1)) == SortElems(LabelledAll(l2, t2))
    ensures l1 == l2 && SortElems(t1) == SortElems(t2)
  {
    hide SortKeys, Labelled, SortElems;
    assert |SortElems(LabelledAll(l1, t1))| == |l1| && |SortElems(LabelledAll(l2, t2))| == |l2|;
    if l1 != [] {
      var first1, first2 := Labelled(l1[0], t1[0]), Labelled(l2[0], t2[0]);
      var rest1, rest2 := LabelledAll(l1[1..], t1[1..]), LabelledAll(l2[1..], t2[1..]);
      SortedCons(first1, rest1);
      SortedCons(first2, rest2);
      SameCons(SortKeys(first1), SortElems(rest1), SortKeys(first2), SortElems(rest2));
      LabelledSameLabel(l1[0], t1[0], l2[0], t2[0]);
      LabelledSameType(l1[0], t1[0], l2[0], t2[0]);
      LabelledAllInjective(l1[1..], t1[1..], l2[1..], t2[1..]);
      SortedCons(t1[0], t1[1..]);
      SortedCons(t2[0], t2[1..]);
      assert l1 == [l1[0]] + l1[1..] && l2 == [l2[0]] + l2[1..];
      assert t1 == [t1[0]] + t1[1..] && t2 == [t2[0]] + t2[1..];
    }
  }

  lemma StringsInjective(a: seq<string>, b: seq<string>)
    requires SortElems(Strings(a)) == SortElems(Strings(b))
    ensures a == b
  {
    assert |a| == |b|;
    forall i | 0 <= i < |a| ensures a[i] == b[i] {
      assert SortElems(Strings(a))[i] == SortElems(Strings(b))[i];
    }
  }

  lemma RecordsAlike(a: Shape, b: Shape)
    requires DocsAlike(a, b) && a.SRecord?
    ensures b.SRecord? && a.labels == b.labels && |a.types| == |b.types|
    ensures forall i :: 0 <= i < |a.types| ==> DocsAlike(a.types[i], b.types[i])
  {
    SameKind(a, b);
    var ta, tb := EncodeAll(a.types), EncodeAll(b.types);
    OneMember(a, b, "fields", JArr(LabelledAll(a.labels, ta)), JArr(LabelledAll(b.labels, tb)));
    hide DocsAlike, EncodeAll;
    LabelledAllInjective(a.labels, ta, b.labels, tb);
    AllAlike(a.types, b.types);
  }

  lemma AllAlike(a: seq<Shape>, b: seq<Shape>)
    requires forall i :: 0 <= i < |a| ==> Fits(a[i])
    requires forall i :: 0 <= i < |b| ==> Fits(b[i])
    requires SortElems(EncodeAll(a)) == SortElems(EncodeAll(b))
    ensures |a| == |b| && forall i :: 0 <= i < |a| ==> DocsAlike(a[i], b[i])
  {
    hide SortKeys, Encode;
    assert |a| == |EncodeAll(a)| == |SortElems(EncodeAll(a))| == |SortElems(EncodeAll(b))| == |EncodeAll(b)| == |b|;
    forall i | 0 <= i < |a| ensures DocsAlike(a[i], b[i]) {
      assert SortElems(EncodeAll(a))[i] == SortElems(EncodeAll(b))[i];
    }
  }

  lemma OptionsAlike(a: seq<Option<Shape>>, b: seq<Option<Shape>>)
    requires forall i :: 0 <= i < |a| ==> a[i].Some? ==> Fits(a[i].value)
    requires forall i :: 0 <= i < |b| ==> b[i].Some? ==> Fits(b[i].value)
    requires SortElems(EncodeOptions(a)) == SortElems(EncodeOptions(b))
    ensures |a| == |b| && forall i :: 0 <= i < |a| ==> OptionDocsAlike(a[i], b[i])
  {
    hide SortKeys, EncodeOption;
    assert |a| == |EncodeOptions(a)| == |SortElems(EncodeOptions(a))|
        == |SortElems(EncodeOptions(b))| == |EncodeOptions(b)| == |b|;
    forall i | 0 <= i < |a| ensures OptionDocsAlike(a[i], b[i]) {
      assert SortElems(EncodeOptions(a))[i] == SortElems(EncodeOptions(b))[i];
    }
  }

  lemma TuplesAlike(a: Shape, b: Shape)
    requires DocsAlike(a, b) && a.STuple?
    ensures b.STuple? && |a.types| == |b.types|
    ensures forall i :: 0 <= i < |a.types| ==> DocsAlike(a.types[i], b.types[i])
  {
    SameKind(a, b);
    OneMember(a, b, "elements", JArr(EncodeAll(a.types)), JArr(EncodeAll(b.types)));
    hide DocsAlike, EncodeAll;
    AllAlike(a.types, b.types);
  }

  lemma VariantsAlike(a: Shape, b: Shape)
    requires DocsAlike(a, b) && a.SVariant?
    ensures b.SVariant? && a.labels == b.labels && |a.payloads| == |b.payloads|
    ensures forall i :: 0 <= i < |a.payloads| ==> OptionDocsAlike(a.payloads[i], b.payloads[i])
  {
    SameKind(a, b);
    var ta, tb := EncodeOptions(a.payloads), EncodeOptions(b.payloads);
    OneMember(a, b, "cases", JArr(LabelledAll(a.labels, ta)), JArr(LabelledAll(b.labels, tb)));
    hide DocsAlike, EncodeOptions;
    LabelledAllInjective(a.labels, ta, b.labels, tb);
    OptionsAlike(a.payloads, b.payloads);
  }

  lemma LabelsAlike(a: Shape, b: Shape)
    requires DocsAlike(a, b) && (a.SEnum? || a.SFlags?)
    ensures a == b
  {
    hide DocsAlike, Encode, Rest, Fits, SortKeys;
    SameKind(a, b);
    LabelsOf(a);
    LabelsOf(b);
    OneMember(a, b, "labels", JArr(Strings(a.labels)), JArr(Strings(b.labels)));
    SortedArray(Strings(a.labels));
    SortedArray(Strings(b.labels));
    StringsInjective(a.labels, b.labels);
  }

  lemma LabelsOf(s: Shape)
    requires s.SEnum? || s.SFlags?
    ensures Fits(s) && Rest(s) == [Member("labels", JArr(Strings(s.labels)))] && "labels" != "kind"
  {}

  lemma SortedArray(elems: seq<Json>)
    ensures SortKeys(JArr(elems)) == JArr(SortElems(elems))
  {}

  lemma ResourceOf(s: Shape)
    requires s.SOwn? || s.SBorrow?
    ensures Fits(s) && Rest(s) == [Member("resource", JStr(s.resource))] && "resource" != "kind"
    ensures SortKeys(JStr(s.resource)) == JStr(s.resource)
  {}

  lemma HandlesAlike(a: Shape, b: Shape)
    requires DocsAlike(a, b) && (a.SOwn? || a.SBorrow?)
    ensures a == b
  {
    hide DocsAlike, Encode, Rest, Fits, SortKeys;
    SameKind(a, b);
    ResourceOf(a);
    ResourceOf(b);
    OneMember(a, b, "resource", JStr(a.resource), JStr(b.resource));
  }

  lemma ElementsAlike(a: Shape, b: Shape)
    requires DocsAlike(a, b) && (a.SList? || a.SFixedList?)
    ensures (a.SList? && b.SList?) || (a.SFixedList? && b.SFixedList? && a.length == b.length)
    ensures DocsAlike(a.t, b.t)
  {
    SameKind(a, b);
    SameFound(a, b, "element");
    SameFound(a, b, "length");
    ListFind(a);
    ListFind(b);
    hide Encode, Rest;
    assert Fits(a.t) && Fits(b.t);
  }

  lemma ListFind(s: Shape)
    requires Fits(s) && (s.SList? || s.SFixedList?)
    ensures Find(Rest(s), "element") == Some(Encode(s.t))
    ensures SortFound(Find(Rest(s), "length")) == if s.SList? then None else Some(JNum(s.length))
  {
    hide Encode;
    assert "element"[0] != "length"[0];
    if s.SFixedList? {
      FindInPair("element", Encode(s.t), "length", JNum(s.length));
    }
  }

  lemma OptionAlike(a: Shape, b: Shape)
    requires DocsAlike(a, b) && a.SOption?
    ensures b.SOption? && DocsAlike(a.t, b.t)
  {
    SameKind(a, b);
    OneMember(a, b, "type", Encode(a.t), Encode(b.t));
  }

  lemma EventualAlike(a: Shape, b: Shape)
    requires DocsAlike(a, b) && (a.SFuture? || a.SStream?)
    ensures a.SFuture? ==> b.SFuture?
    ensures a.SStream? ==> b.SStream?
    ensures OptionDocsAlike(a.element, b.element)
  {
    SameKind(a, b);
    hide Encode, EncodeOption, SortKeys;
    OneMember(a, b, "element", EncodeOption(a.element), EncodeOption(b.element));
  }

  lemma ResultsAlike(a: Shape, b: Shape)
    requires DocsAlike(a, b) && a.SResult?
    ensures b.SResult? && OptionDocsAlike(a.ok, b.ok) && OptionDocsAlike(a.err, b.err)
  {
    SameKind(a, b);
    SameFound(a, b, "ok");
    SameFound(a, b, "err");
    FindInPair("ok", EncodeOption(a.ok), "err", EncodeOption(a.err));
    FindInPair("ok", EncodeOption(b.ok), "err", EncodeOption(b.err));
    hide EncodeOption;
    assert "ok"[0] != "err"[0];
  }

  lemma {:induction false} OptionInjective(a: Option<Shape>, b: Option<Shape>)
    requires OptionDocsAlike(a, b)
    ensures a == b
    decreases a
  {
    assert a.None? <==> SortKeys(EncodeOption(a)).JNull?;
    assert b.None? <==> SortKeys(EncodeOption(b)).JNull?;
    if a.Some? { EncodeInjective(a.value, b.value); }
  }

  /** Nothing in the shape is lost: documents equal up to key order come from the same shape. */
  lemma {:induction false} EncodeInjective(a: Shape, b: Shape)
    requires DocsAlike(a, b)
    ensures a == b
    decreases a
  {
    hide DocsAlike, OptionDocsAlike;
    match a
    case SBasic(_) => SameKind(a, b);
    case SRecord(_, _) =>
      RecordsAlike(a, b);
      forall i | 0 <= i < |a.types| ensures a.types[i] == b.types[i] {
        EncodeInjective(a.types[i], b.types[i]);
      }
    case STuple(_) =>
      TuplesAlike(a, b);
      forall i | 0 <= i < |a.types| ensures a.types[i] == b.types[i] {
        EncodeInjective(a.types[i], b.types[i]);
      }
    case SVariant(_, _) =>
      VariantsAlike(a, b);
      forall i | 0 <= i < |a.payloads| ensures a.payloads[i] == b.payloads[i] {
        OptionInjective(a.payloads[i], b.payloads[i]);
      }
    case SEnum(_) => LabelsAlike(a, b);
    case SFlags(_) => LabelsAlike(a, b);
    case SOwn(_) => HandlesAlike(a, b);
    case SBorrow(_) => HandlesAlike(a, b);
    case SOption(_) =>
      OptionAlike(a, b);
      EncodeInjective(a.t, b.t);
    case SResult(_, _) =>
      ResultsAlike(a, b);
      OptionInjective(a.ok, b.ok);
      OptionInjective(a.err, b.err);
    case SList(_) =>
      ElementsAlike(a, b);
      EncodeInjective(a.t, b.t);
    case SFixedList(_, _) =>
      ElementsAlike(a, b);
      EncodeInjective(a.t, b.t);
    case SFuture(_) =>
      EventualAlike(a, b);
      OptionInjective(a.element, b.element);
    case SStream(_) =>
      EventualAlike(a, b);
      OptionInjective(a.element, b.element);
  }
}
