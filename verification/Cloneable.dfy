/** protocol/src/cloneable.ts: toCloneable and fromCloneable, without the `replace` option.
  *
  * The sender's values live in a heap of objects that may share and may be cyclic; what toCloneable
  * returns is fresh plain data, a tree.  structuredClone copies such a tree faithfully, so decode
  * is applied to it directly.
  */
module Cloneable {
  import opened Prelude

  type Ref = nat

  datatype Prim = Undefined | Null | Boolean(b: bool) | Number(n: real) | BigInt(i: int) | String(s: string)

  datatype Value = Plain(prim: Prim) | Function | Symbol | Object(ref: Ref)

  /** The brands, envelope-encodable ones first in detection order, and the realm-local marks. */
  datatype Brand =
    | ComponentException | Trap | Dropped | InvalidHandle | PeerTrapped | StreamProducer
    | ErrorContext | WasiExit
    | RealmLocalPill | Stream | Future | Pollable | StreamWriter | ResourceState

  /** The property that makes a plain object an envelope. */
  const TAG: string := "polyengine.cloneable/1"

  const PROTO: string := "__proto__"

  datatype Shape =
    | ErrorShape | BinaryShape | ArrayShape(elems: seq<Value>) | PlainShape(props: seq<(string, Value)>)
    | ExoticShape | ForeignShape

  /** An object as the encoder inspects it.  `message` and `name` are as `messageOf` and `String`
    * read them; `cause` is the own property if there is one; `progress`, `ok` and `code` are copied
    * without being walked and are primitives here. */
  datatype Obj = Obj(
    brands: set<Brand>, shape: Shape, name: string, message: string, stack: Option<string>,
    cause: Option<Value>, payload: Value, progress: Prim, ok: Prim, code: Prim)

  type Heap = map<Ref, Obj>

  /** Plain data: what toCloneable produces.  An envelope is an object like any other, told apart by
    * its own tag property alone; an opaque leaf is passed through. */
  datatype Data =
    | DPrim(prim: Prim) | DOpaque(ref: Ref) | DArray(elems: seq<Data>) | DObject(props: seq<Prop>)

  datatype Prop = Prop(key: string, value: Data)

  /** The kinds of envelope: one for each encodable brand, and one for unbranded errors. */
  datatype Tag = BrandTag(brand: Brand) | PlainErrorTag

  /** The text under which a kind of envelope travels. */
  function TagText(tag: Tag): string {
    match tag
    case BrandTag(ComponentException) => "polyengine.componentException/1"
    case BrandTag(Trap) => "polyengine.trap/1"
    case BrandTag(Dropped) => "polyengine.dropped/1"
    case BrandTag(InvalidHandle) => "polyengine.invalidHandle/1"
    case BrandTag(PeerTrapped) => "polyengine.peerTrapped/1"
    case BrandTag(StreamProducer) => "polyengine.streamProducer/1"
    case BrandTag(ErrorContext) => "polyengine.errorContext/1"
    case BrandTag(WasiExit) => "polyengine.wasiExit/1"
    case BrandTag(_) => ""
    case PlainErrorTag => "error"
  }

  /** The own properties of an envelope beside its tag. */
  datatype Fields = Fields(
    name: Option<Data>, message: Option<Data>, ok: Option<Data>, stack: Option<Data>, cause: Option<Data>,
    progress: Option<Data>, payload: Option<Data>, code: Option<Data>)

  const NO_FIELDS: Fields := Fields(None, None, None, None, None, None, None, None)

  function Opt(key: string, value: Option<Data>): seq<Prop> {
    match value case None => [] case Some(d) => [Prop(key, d)]
  }

  /** The envelope as an object: its tag, then the fields it has. */
  function Envelope(tag: Tag, own: Fields): Data {
    DObject(
      [Prop(TAG, DPrim(String(TagText(tag))))] + Opt("name", own.name) + Opt("message", own.message) + Opt("ok", own.ok)
      + Opt("stack", own.stack) + Opt("cause", own.cause) + Opt("progress", own.progress) + Opt("payload", own.payload)
      + Opt("code", own.code))
  }

  datatype Refusal = Cyclic | FunctionValue | SymbolValue | RealmLocal | CarriesTag | ForeignPrototype

  // ---- what a value is -----------------------------------------------------------------------

  /** What an object is, by its brands and its shape. */
  datatype Sort =
    | ErrorOf(brand: Brand) | Context | Exit | Handle | PlainError
    | Leaf | ArrayOf(elems: seq<Value>) | ObjectOf(props: seq<(string, Value)>) | Foreign

  /** Marks of values that cannot leave their realm. */
  const HANDLE_MARKS: set<Brand> := {RealmLocalPill, Stream, Future, Pollable, StreamWriter, ResourceState}

  /** An error brand makes an error, ahead of every other mark, and of several the one listed first
    * counts; an error context or an exit unwind is one even if it is marked as a handle; any other
    * marked value is a handle; the rest goes by shape. */
  ghost function SortOf(o: Obj): Sort {
    if ComponentException in o.brands then ErrorOf(ComponentException)
    else if Trap in o.brands then ErrorOf(Trap)
    else if Dropped in o.brands then ErrorOf(Dropped)
    else if InvalidHandle in o.brands then ErrorOf(InvalidHandle)
    else if PeerTrapped in o.brands then ErrorOf(PeerTrapped)
    else if StreamProducer in o.brands then ErrorOf(StreamProducer)
    else if ErrorContext in o.brands then Context
    else if WasiExit in o.brands then Exit
    else if o.brands !! HANDLE_MARKS then
      match o.shape
      case ErrorShape => PlainError
      case ArrayShape(elems) => ArrayOf(elems)
      case PlainShape(props) => ObjectOf(props)
      case BinaryShape => Leaf
      case ExoticShape => Leaf
      case ForeignShape => Foreign
    else Handle
  }

  /** The values inside an object: the own cause of an error, the payload of a component exception,
    * the elements of an array, the members of a plain object. */
  ghost function Parts(o: Obj): (vs: seq<Value>)
    ensures
      match SortOf(o)
      case ErrorOf(brand) =>
        vs == (if o.cause.Some? then [o.cause.value] else []) + (if brand == ComponentException then [o.payload] else [])
      case PlainError => vs == if o.cause.Some? then [o.cause.value] else []
      case ArrayOf(elems) => vs == elems
      case ObjectOf(props) => |vs| == |props| && forall i :: 0 <= i < |vs| ==> vs[i] == props[i].1
      case _ => vs == []
  {
    match SortOf(o)
    case ErrorOf(brand) =>
      (if o.cause.Some? then [o.cause.value] else []) + (if brand == ComponentException then [o.payload] else [])
    case PlainError => if o.cause.Some? then [o.cause.value] else []
    case ArrayOf(elems) => elems
    case ObjectOf(props) => seq(|props|, i requires 0 <= i < |props| => props[i].1)
    case _ => []
  }

  // ---- encode ------------------------------------------------------------------------------

  const ERROR_BRANDS: seq<Brand> := [ComponentException, Trap, Dropped, InvalidHandle, PeerTrapped, StreamProducer]

  /** How the encoder classifies an object: the first test that applies. */
  datatype Class =
    | BrandedError(brand: Brand) | ContextClass | ExitClass | RealmLocalClass | PlainErrorClass
    | OpaqueClass | ArrayClass | TagCarrier | PlainClass | ForeignClass

  function FirstErrorBrand(brands: set<Brand>, i: nat): Option<Brand>
    requires i <= |ERROR_BRANDS|
    decreases |ERROR_BRANDS| - i
  {
    if i == |ERROR_BRANDS| then None
    else if ERROR_BRANDS[i] in brands then Some(ERROR_BRANDS[i])
    else FirstErrorBrand(brands, i + 1)
  }

  predicate IsRealmLocal(brands: set<Brand>) {
    RealmLocalPill in brands || Stream in brands || Future in brands || Pollable in brands
    || StreamWriter in brands || ResourceState in brands
  }

  function Classify(o: Obj): Class {
    var brand := FirstErrorBrand(o.brands, 0);
    if brand.Some? then BrandedError(brand.value)
    else if ErrorContext in o.brands then ContextClass
    else if WasiExit in o.brands then ExitClass
    else if IsRealmLocal(o.brands) then RealmLocalClass
    else match o.shape
      case ErrorShape => PlainErrorClass
      case BinaryShape => OpaqueClass
      case ArrayShape(_) => ArrayClass
      case PlainShape(props) => if HasKey(props, TAG) then TagCarrier else PlainClass
      case ExoticShape => OpaqueClass
      case ForeignShape => ForeignClass
  }

  predicate HasKey<T>(props: seq<(string, T)>, k: string) {
    exists i :: 0 <= i < |props| && props[i].0 == k
  }

  /** The values the encoder walks from an object, in order. */
  function Children(o: Obj): seq<Value> {
    match Classify(o)
    case BrandedError(brand) => CauseOf(o) + (if brand == ComponentException then [o.payload] else [])
    case PlainErrorClass => CauseOf(o)
    case ArrayClass => if o.shape.ArrayShape? then o.shape.elems else []
    case PlainClass => if o.shape.PlainShape? then PropValues(o.shape.props) else []
    case _ => []
  }

  function CauseOf(o: Obj): seq<Value> {
    if o.cause.Some? then [o.cause.value] else []
  }

  function PropValues<T>(props: seq<(string, T)>): seq<T> {
    seq(|props|, i requires 0 <= i < |props| => props[i].1)
  }

  predicate InHeap(h: Heap, v: Value) {
    v.Object? ==> v.ref in h
  }

  ghost predicate Closed(h: Heap) {
    forall r | r in h :: forall i :: 0 <= i < |Parts(h[r])| ==> InHeap(h, Parts(h[r])[i])
  }

  /** The encoder's tests find what an object is, and it walks the parts of all but tag carriers. */
  lemma ClassifiesSorts(o: Obj)
    ensures
      match SortOf(o)
      case ErrorOf(brand) => Classify(o) == BrandedError(brand)
      case Context => Classify(o) == ContextClass
      case Exit => Classify(o) == ExitClass
      case Handle => Classify(o) == RealmLocalClass
      case PlainError => Classify(o) == PlainErrorClass
      case Leaf => Classify(o) == OpaqueClass
      case ArrayOf(elems) => Classify(o) == ArrayClass && o.shape == ArrayShape(elems)
      case ObjectOf(props) =>
        o.shape == PlainShape(props) && Classify(o) == if HasKey(props, TAG) then TagCarrier else PlainClass
      case Foreign => Classify(o) == ForeignClass
  {
    FirstListedBrand(o.brands);
    hide FirstErrorBrand;
  }

  lemma FirstListedBrand(brands: set<Brand>)
    ensures
      FirstErrorBrand(brands, 0) ==
      if ComponentException in brands then Some(ComponentException) else if Trap in brands then Some(Trap)
      else if Dropped in brands then Some(Dropped) else if InvalidHandle in brands then Some(InvalidHandle)
      else if PeerTrapped in brands then Some(PeerTrapped) else if StreamProducer in brands then Some(StreamProducer)
      else None
  {
    assert FirstErrorBrand(brands, 3) == if InvalidHandle in brands then Some(InvalidHandle)
      else if PeerTrapped in brands then Some(PeerTrapped) else if StreamProducer in brands then Some(StreamProducer)
      else None;
  }

  lemma WalksParts(o: Obj)
    ensures Children(o) == if Classify(o).TagCarrier? then [] else Parts(o)
  {
    ClassifiesSorts(o);
    hide Classify;
  }

  lemma ChildrenInHeap(h: Heap, r: Ref)
    requires Closed(h) && r in h
    ensures AllInHeap(h, Children(h[r])) && AllInHeap(h, Parts(h[r]))
  {
    WalksParts(h[r]);
    hide Classify, Children, Parts;
  }

  predicate AllInHeap(h: Heap, vs: seq<Value>) {
    forall i :: 0 <= i < |vs| ==> InHeap(h, vs[i])
  }

  /** The data built for an object once its children are encoded. */
  function Build(o: Obj, ref: Ref, kids: seq<Data>): Result<Data, Refusal>
    requires |kids| == |Children(o)|
  {
    match Classify(o)
    case BrandedError(brand) => Ok(Envelope(BrandTag(brand), BrandedFields(o, brand, kids)))
    case ContextClass => Ok(Envelope(BrandTag(ErrorContext), NO_FIELDS.(message := Text(o.message))))
    case ExitClass =>
      Ok(Envelope(BrandTag(WasiExit),
           NO_FIELDS.(message := Text(o.message), ok := Some(DPrim(o.ok)), stack := StackField(o), code := IfDefined(o.code))))
    case RealmLocalClass => Err(RealmLocal)
    case PlainErrorClass =>
      Ok(Envelope(PlainErrorTag,
           NO_FIELDS.(name := Text(o.name), message := Text(o.message), stack := StackField(o), cause := CauseField(o, kids))))
    case OpaqueClass => Ok(DOpaque(ref))
    case ArrayClass => Ok(DArray(kids))
    case TagCarrier => Err(CarriesTag)
    case PlainClass => Ok(DObject(if o.shape.PlainShape? then Assigned(o.shape.props, kids) else []))
    case ForeignClass => Err(ForeignPrototype)
  }

  function Text(s: string): Option<Data> {
    Some(DPrim(String(s)))
  }

  function StackField(o: Obj): Option<Data> {
    if o.stack.Some? then Text(o.stack.value) else None
  }

  function CauseField(o: Obj, kids: seq<Data>): Option<Data> {
    if o.cause.Some? && |kids| > 0 then Some(kids[0]) else None
  }

  /** A property that is left out when undefined. */
  function IfDefined(p: Prim): Option<Data> {
    if p != Undefined then Some(DPrim(p)) else None
  }

  function BrandedFields(o: Obj, brand: Brand, kids: seq<Data>): Fields {
    NO_FIELDS.(message := Text(o.message), stack := StackField(o), cause := CauseField(o, kids),
      progress := if brand == PeerTrapped then IfDefined(o.progress) else None,
      payload := if brand == ComponentException && |kids| > 0 then Some(kids[|kids| - 1]) else None)
  }

  /** `out[k] = value` for each key in turn on a fresh object: the keys are distinct, and assigning
    * to `__proto__` makes no own property. */
  function Assigned(props: seq<(string, Value)>, kids: seq<Data>): seq<Prop>
    requires |props| == |kids|
  {
    if props == [] then []
    else (if props[0].0 == PROTO then [] else [Prop(props[0].0, kids[0])]) + Assigned(props[1..], kids[1..])
  }

  /** `encode`, with the objects on the current path in `seen`. */
  function Encode(h: Heap, v: Value, seen: set<Ref>): Result<Data, Refusal>
    requires Closed(h) && InHeap(h, v)
    decreases |h.Keys - seen|, 0, 0
  {
    match v
    case Plain(prim) => Ok(DPrim(prim))
    case Function => Err(FunctionValue)
    case Symbol => Err(SymbolValue)
    case Object(r) =>
      if r in seen then Err(Cyclic)
      else
        Smaller(h, r, seen);
        ChildrenInHeap(h, r);
        match EncodeAll(h, Children(h[r]), seen + {r})
        case Err(e) => Err(e)
        case Ok(kids) => Build(h[r], r, kids)
  }

  function EncodeAll(h: Heap, vs: seq<Value>, seen: set<Ref>): (r: Result<seq<Data>, Refusal>)
    requires Closed(h) && AllInHeap(h, vs)
    ensures r.Ok? ==> |r.value| == |vs|
    decreases |h.Keys - seen|, 1, |vs|
  {
    if vs == [] then Ok([])
    else match Encode(h, vs[0], seen)
      case Err(e) => Err(e)
      case Ok(d) =>
        match EncodeAll(h, vs[1..], seen)
        case Err(e) => Err(e)
        case Ok(rest) => Ok([d] + rest)
  }

  lemma Smaller(h: Heap, r: Ref, seen: set<Ref>)
    requires r in h && r !in seen
    ensures |h.Keys - (seen + {r})| < |h.Keys - seen|
  {
    assert h.Keys - seen == (h.Keys - (seen + {r})) + {r};
  }

  /** The encoder with its shared `seen` set, which every call leaves as it found it, whether it
    * returns or throws. */
  class Encoder {
    var seen: set<Ref>

    constructor ()
      ensures seen == {}
    {
      seen := {};
    }

    method EncodeValue(h: Heap, v: Value) returns (r: Result<Data, Refusal>)
      requires Closed(h) && InHeap(h, v)
      modifies this
      ensures seen == old(seen) && r == Encode(h, v, old(seen))
      decreases |h.Keys - seen|, 0, 0
    {
      match v
      case Plain(prim) => return Ok(DPrim(prim));
      case Function => return Err(FunctionValue);
      case Symbol => return Err(SymbolValue);
      case Object(ref) =>
        if ref in seen { return Err(Cyclic); }
        Smaller(h, ref, seen);
        ChildrenInHeap(h, ref);
        seen := seen + {ref};
        var kids := EncodeChildren(h, Children(h[ref]));
        seen := seen - {ref};
        match kids
        case Err(e) => return Err(e);
        case Ok(data) => return Build(h[ref], ref, data);
    }

    method EncodeChildren(h: Heap, vs: seq<Value>) returns (r: Result<seq<Data>, Refusal>)
      requires Closed(h) && AllInHeap(h, vs)
      modifies this
      ensures seen == old(seen) && r == EncodeAll(h, vs, old(seen))
      decreases |h.Keys - seen|, 1, |vs|
    {
      var out: seq<Data> := [];
      AppendNothing(EncodeAll(h, vs, seen));
      assert vs[0..] == vs;
      for i := 0 to |vs|
        invariant seen == old(seen)
        invariant Append(out, EncodeAll(h, vs[i..], seen)) == EncodeAll(h, vs, seen)
      {
        var rest := vs[i..];
        assert rest[0] == vs[i] && rest[1..] == vs[i + 1..];
        var d := EncodeValue(h, vs[i]);
        AppendOne(out, d, EncodeAll(h, vs[i + 1..], seen));
        match d
        case Err(e) => return Err(e);
        case Ok(data) => out := out + [data];
      }
      assert out + [] == out;
      return Ok(out);
    }
  }

  ghost function Append<T, E>(out: seq<T>, rest: Result<seq<T>, E>): Result<seq<T>, E> {
    match rest case Err(e) => Err(e) case Ok(s) => Ok(out + s)
  }

  lemma AppendNothing<T, E>(rest: Result<seq<T>, E>)
    ensures Append([], rest) == rest
  {
    if rest.Ok? { assert [] + rest.value == rest.value; }
  }

  lemma AppendOne<T, E>(out: seq<T>, d: Result<T, E>, rest: Result<seq<T>, E>)
    ensures d.Ok? && rest.Ok? ==> Append(out, Ok([d.value] + rest.value)) == Append(out + [d.value], rest)
  {
    if d.Ok? && rest.Ok? { assert out + ([d.value] + rest.value) == out + [d.value] + rest.value; }
  }

  // ---- cycles and sharing ------------------------------------------------------------------

  /** A path into a value: each step goes to a part of the object before. */
  ghost predicate ValuePath(h: Heap, v: Value, path: seq<Value>)
    decreases |path|
  {
    && path != [] && path[0] == v
    && (|path| > 1 ==> v.Object? && v.ref in h && path[1] in Parts(h[v.ref]) && ValuePath(h, path[1], path[1..]))
  }

  /** Some object is on the path twice. */
  ghost predicate Revisits(path: seq<Value>) {
    exists i, j :: 0 <= i < j < |path| && path[i] == path[j] && path[i].Object?
  }

  /** Why a value is refused whatever is inside it. */
  ghost predicate Reason(h: Heap, v: Value, e: Refusal) {
    match e
    case FunctionValue => v.Function?
    case SymbolValue => v.Symbol?
    case RealmLocal => v.Object? && v.ref in h && SortOf(h[v.ref]) == Handle
    case CarriesTag => v.Object? && v.ref in h && SortOf(h[v.ref]).ObjectOf? && HasKey(SortOf(h[v.ref]).props, TAG)
    case ForeignPrototype => v.Object? && v.ref in h && SortOf(h[v.ref]) == Foreign
    case Cyclic => false
  }

  /** The path ends at a value that is refused for e: by itself, or as an object met before. */
  ghost predicate Bad(h: Heap, path: seq<Value>, seen: set<Ref>, e: Refusal)
    requires path != []
  {
    var last := path[|path| - 1];
    if e == Cyclic then last.Object? && (last.ref in seen || last in path[..|path| - 1]) else Reason(h, last, e)
  }

  lemma {:induction false} AllEncoded(h: Heap, vs: seq<Value>, seen: set<Ref>, c: Value)
    requires Closed(h) && AllInHeap(h, vs) && EncodeAll(h, vs, seen).Ok? && c in vs
    ensures InHeap(h, c) && Encode(h, c, seen).Ok?
    decreases |vs|
  {
    if c != vs[0] { AllEncoded(h, vs[1..], seen, c); }
  }

  /** An encoded object is of an acceptable sort, and its parts are encoded. */
  lemma EncodedObject(h: Heap, r: Ref, seen: set<Ref>, e: Refusal)
    requires Closed(h) && r in h && Encode(h, Object(r), seen).Ok?
    ensures r !in seen && !Reason(h, Object(r), e)
    ensures AllInHeap(h, Parts(h[r])) && EncodeAll(h, Parts(h[r]), seen + {r}).Ok?
  {
    hide Classify, Parts;
    ClassifiesSorts(h[r]);
    WalksParts(h[r]);
    ChildrenInHeap(h, r);
  }

  /** While an encoding succeeds, no path ends at a refused value. */
  lemma {:induction false} EncodedIsFine(h: Heap, v: Value, seen: set<Ref>, path: seq<Value>, e: Refusal)
    requires Closed(h) && InHeap(h, v) && Encode(h, v, seen).Ok? && ValuePath(h, v, path)
    ensures !Bad(h, path, seen, e)
    decreases |path|
  {
    if v.Object? {
      EncodedObject(h, v.ref, seen, e);
      if |path| > 1 {
        var r, tail := v.ref, path[1..];
        hide Encode, Reason, Parts, Closed;
        AllEncoded(h, Parts(h[r]), seen + {r}, path[1]);
        EncodedIsFine(h, path[1], seen + {r}, tail, e);
        assert tail[|tail| - 1] == path[|path| - 1];
        assert forall k :: 0 < k < |path| - 1 ==> path[k] == tail[..|tail| - 1][k - 1];
      }
    }
  }

  /** A refusal has its reason at the end of some path. */
  lemma {:induction false} RefusedIsBad(h: Heap, v: Value, seen: set<Ref>) returns (path: seq<Value>)
    requires Closed(h) && InHeap(h, v) && Encode(h, v, seen).Err?
    ensures ValuePath(h, v, path) && Bad(h, path, seen, Encode(h, v, seen).error)
    decreases |h.Keys - seen|, 0, 0
  {
    path := [v];
    if v.Object? && v.ref !in seen {
      var r, e := v.ref, Encode(h, v, seen).error;
      Smaller(h, r, seen);
      ChildrenInHeap(h, r);
      ClassifiesSorts(h[r]);
      WalksParts(h[r]);
      if EncodeAll(h, Children(h[r]), seen + {r}).Err? {
        hide Classify, Children, Parts, Reason;
        var c, tail := RefusedChild(h, Children(h[r]), seen + {r});
        path := [v] + tail;
        assert path[1..] == tail;
        var last := path[|path| - 1];
        if e == Cyclic {
          if last in tail[..|tail| - 1] {
            var k :| 0 <= k < |tail| - 1 && tail[k] == last;
            assert path[..|path| - 1][k + 1] == last;
          } else if last.ref == r {
            assert path[..|path| - 1][0] == last;
          }
        }
      }
    }
  }

  lemma {:induction false} RefusedChild(h: Heap, vs: seq<Value>, seen: set<Ref>) returns (c: Value, path: seq<Value>)
    requires Closed(h) && AllInHeap(h, vs) && EncodeAll(h, vs, seen).Err?
    ensures c in vs && ValuePath(h, c, path) && Bad(h, path, seen, EncodeAll(h, vs, seen).error)
    decreases |h.Keys - seen|, 1, |vs|
  {
    hide Bad;
    if Encode(h, vs[0], seen).Err? {
      c := vs[0];
      path := RefusedIsBad(h, c, seen);
    } else {
      c, path := RefusedChild(h, vs[1..], seen);
    }
  }

  /** A value is encoded exactly if no path into it ends at a function, a symbol, a handle, a tag
    * carrier, an object of a foreign prototype, or an object met before on the path; and what is
    * thrown is the reason at the end of one such path. */
  lemma EncodesIff(h: Heap, v: Value)
    requires Closed(h) && InHeap(h, v)
    ensures Encode(h, v, {}).Ok? <==> forall path, e :: ValuePath(h, v, path) ==> !Bad(h, path, {}, e)
    ensures Encode(h, v, {}).Err? ==>
      exists path :: ValuePath(h, v, path) && Bad(h, path, {}, Encode(h, v, {}).error)
  {
    hide Encode, Bad;
    if Encode(h, v, {}).Ok? {
      forall path, e | ValuePath(h, v, path) ensures !Bad(h, path, {}, e) { EncodedIsFine(h, v, {}, path, e); }
    } else {
      var path := RefusedIsBad(h, v, {});
    }
  }

  lemma {:induction false} PathPrefix(h: Heap, v: Value, path: seq<Value>, n: nat)
    requires ValuePath(h, v, path) && 0 < n <= |path|
    ensures ValuePath(h, v, path[..n])
    decreases |path|
  {
    if n > 1 {
      PathPrefix(h, path[1], path[1..], n - 1);
      assert path[..n][1..] == path[1..][..n - 1];
    }
  }

  /** While an encoding succeeds, no path into the value revisits an object or enters `seen`. */
  lemma {:induction false} EncodedPathsAreSimple(h: Heap, v: Value, seen: set<Ref>, path: seq<Value>)
    requires Closed(h) && InHeap(h, v) && Encode(h, v, seen).Ok? && ValuePath(h, v, path)
    ensures !Revisits(path) && forall i :: 0 <= i < |path| && path[i].Object? ==> path[i].ref !in seen
  {
    forall j | 0 <= j < |path| && path[j].Object? ensures path[j].ref !in seen && path[j] !in path[..j] {
      PathPrefix(h, v, path, j + 1);
      EncodedIsFine(h, v, seen, path[..j + 1], Cyclic);
      assert path[..j + 1][..j] == path[..j];
    }
    forall i, j | 0 <= i < j < |path| && path[i] == path[j] ensures !path[i].Object? {
      assert path[..j][i] == path[j];
    }
  }

  /** No value of the heap would be refused for anything but a cycle. */
  ghost predicate Clonable(h: Heap) {
    forall r | r in h :: ClonableObj(h[r])
  }

  ghost predicate ClonableObj(o: Obj) {
    && SortOf(o) != Handle && SortOf(o) != Foreign
    && (SortOf(o).ObjectOf? ==> !HasKey(SortOf(o).props, TAG))
    && forall c :: c in Parts(o) ==> !c.Function? && !c.Symbol?
  }

  lemma {:induction false} NoOtherReason(h: Heap, v: Value, path: seq<Value>, e: Refusal)
    requires Closed(h) && Clonable(h) && InHeap(h, v) && !v.Function? && !v.Symbol? && ValuePath(h, v, path)
    ensures !Reason(h, path[|path| - 1], e)
    decreases |path|
  {
    if v.Object? { assert ClonableObj(h[v.ref]); }
    if |path| > 1 {
      ChildrenInHeap(h, v.ref);
      NoOtherReason(h, path[1], path[1..], e);
    }
  }

  /** With nothing else to refuse, encoding reports a cycle exactly when some path into the value
    * revisits an object on it, and succeeds otherwise. */
  lemma CycleExactly(h: Heap, v: Value)
    requires Closed(h) && Clonable(h) && InHeap(h, v) && !v.Function? && !v.Symbol?
    ensures Encode(h, v, {}).Err? ==> Encode(h, v, {}) == Err(Cyclic)
    ensures Encode(h, v, {}).Err? <==> exists path :: ValuePath(h, v, path) && Revisits(path)
  {
    hide Encode, Clonable, Closed, Reason;
    if Encode(h, v, {}).Err? {
      var path := RefusedIsBad(h, v, {});
      NoOtherReason(h, v, path, Encode(h, v, {}).error);
      var k :| 0 <= k < |path| - 1 && path[..|path| - 1][k] == path[|path| - 1];
      assert Revisits(path);
    } else {
      forall path | ValuePath(h, v, path) ensures !Revisits(path) {
        EncodedPathsAreSimple(h, v, {}, path);
      }
    }
  }

  /** Sharing: what an object encodes to does not depend on the path that led to it. */
  lemma {:induction false} SharedEncodeAlike(h: Heap, v: Value, seen: set<Ref>, fewer: set<Ref>)
    requires Closed(h) && InHeap(h, v) && fewer <= seen && Encode(h, v, seen).Ok?
    ensures Encode(h, v, fewer) == Encode(h, v, seen)
    decreases |h.Keys - seen|, 0, 0
  {
    match v
    case Object(r) =>
      Smaller(h, r, seen);
      ChildrenInHeap(h, r);
      SharedEncodeAllAlike(h, Children(h[r]), seen + {r}, fewer + {r});
    case _ =>
  }

  lemma {:induction false} SharedEncodeAllAlike(h: Heap, vs: seq<Value>, seen: set<Ref>, fewer: set<Ref>)
    requires Closed(h) && AllInHeap(h, vs) && fewer <= seen && EncodeAll(h, vs, seen).Ok?
    ensures EncodeAll(h, vs, fewer) == EncodeAll(h, vs, seen)
    decreases |h.Keys - seen|, 1, |vs|
  {
    if vs != [] {
      SharedEncodeAlike(h, vs[0], seen, fewer);
      SharedEncodeAllAlike(h, vs[1..], seen, fewer);
    }
  }

  // ---- decode ------------------------------------------------------------------------------

  /** What a matcher can observe of a value, to any depth.  `stack` is the one carried, if any. */
  datatype Obs =
    | OPrim(prim: Prim) | OOpaque(ref: Ref) | OArray(elems: seq<Obs>) | OObject(props: seq<(string, Obs)>)
    | OError(brand: Brand, message: string, stack: Option<string>, cause: Option<Obs>, payload: Option<Obs>, progress: Prim)
    | OContext(message: string)
    | OExit(message: string, ok: Prim, stack: Option<string>, code: Prim)
    | OPlainError(name: string, message: string, stack: Option<string>, cause: Option<Obs>)

  function TextOr(d: Option<Data>, default: string): string {
    match d case Some(DPrim(String(s))) => s case _ => default
  }

  function CarriedStack(d: Option<Data>): Option<string> {
    match d case Some(DPrim(String(s))) => Some(s) case _ => None
  }

  function RawPrim(d: Option<Data>): Prim {
    match d case Some(DPrim(p)) => p case _ => Undefined
  }

  /** The place of an own property; the number of properties if it is absent. */
  function IndexOf(props: seq<Prop>, k: string): (i: nat)
    ensures i <= |props|
    ensures i < |props| ==> props[i].key == k
    ensures forall j :: 0 <= j < i ==> props[j].key != k
  {
    if props == [] || props[0].key == k then 0 else 1 + IndexOf(props[1..], k)
  }

  /** An own property, if there is one. */
  function Own(props: seq<Prop>, k: string): Option<Data> {
    var i := IndexOf(props, k);
    if i < |props| then Some(props[i].value) else None
  }

  /** The kind of envelope that a tag announces. */
  function ReadTag(d: Option<Data>): Option<Tag> {
    match d
    case Some(DPrim(String(s))) =>
      if s == TagText(BrandTag(ComponentException)) then Some(BrandTag(ComponentException))
      else if s == TagText(BrandTag(Trap)) then Some(BrandTag(Trap))
      else if s == TagText(BrandTag(Dropped)) then Some(BrandTag(Dropped))
      else if s == TagText(BrandTag(InvalidHandle)) then Some(BrandTag(InvalidHandle))
      else if s == TagText(BrandTag(PeerTrapped)) then Some(BrandTag(PeerTrapped))
      else if s == TagText(BrandTag(StreamProducer)) then Some(BrandTag(StreamProducer))
      else if s == TagText(BrandTag(ErrorContext)) then Some(BrandTag(ErrorContext))
      else if s == TagText(BrandTag(WasiExit)) then Some(BrandTag(WasiExit))
      else if s == TagText(PlainErrorTag) then Some(PlainErrorTag)
      else None
    case _ => None
  }

  /** `String` of a rehydrated value does not throw.  A plain object prints through `toString`, and an
    * own property of that name is never a function here; an array prints its elements. */
  predicate Printable(o: Obs) {
    match o
    case OArray(elems) => forall i :: 0 <= i < |elems| ==> Printable(elems[i])
    case OObject(props) => !HasKey(props, "toString")
    case _ => true
  }

  /** `decode`; None for a TypeError: on an unknown tag, or from printing a cause. */
  function Decode(d: Data): Option<Obs>
    decreases d, 1
  {
    match d
    case DPrim(prim) => Some(OPrim(prim))
    case DOpaque(ref) => Some(OOpaque(ref))
    case DArray(elems) => (match DecodeAll(elems) case None => None case Some(os) => Some(OArray(os)))
    case DObject(props) =>
      if IndexOf(props, TAG) < |props| then Rehydrate(props)
      else (match DecodeProps(props) case None => None case Some(ps) => Some(OObject(ps)))
  }

  function DecodeAll(ds: seq<Data>): (r: Option<seq<Obs>>)
    ensures r.Some? ==> |r.value| == |ds|
    decreases ds, 0
  {
    if ds == [] then Some([])
    else match (Decode(ds[0]), DecodeAll(ds[1..]))
      case (Some(o), Some(rest)) => Some([o] + rest)
      case _ => None
  }

  function DecodeValue(p: Prop): Option<Obs>
    decreases p, 0
  {
    Decode(p.value)
  }

  /** `out[k] = decode(value)` for each key in turn. */
  function DecodeProps(props: seq<Prop>): Option<seq<(string, Obs)>>
    decreases props, 0
  {
    if props == [] then Some([])
    else match (DecodeValue(props[0]), DecodeProps(props[1..]))
      case (Some(o), Some(rest)) => Some((if props[0].key == PROTO then [] else [(props[0].key, o)]) + rest)
      case _ => None
  }

  /** The decoded value of an own property; undefined if it is absent. */
  function DecodeField(props: seq<Prop>, k: string): Option<Obs>
    decreases props, 0
  {
    var i := IndexOf(props, k);
    if i < |props| then Decode(props[i].value) else Some(OPrim(Undefined))
  }

  /** The decoded `cause`, defined on the error only if the envelope carries one. */
  function DecodeCause(props: seq<Prop>): Option<Option<Obs>>
    decreases props, 0
  {
    var i := IndexOf(props, "cause");
    if i < |props| then match Decode(props[i].value) case None => None case Some(cause) => Some(Some(cause))
    else Some(None)
  }

  function WithCause(brand: Brand, message: string, stack: Option<string>, cause: Option<Option<Obs>>): Option<Obs> {
    match cause case None => None case Some(c) => Some(OError(brand, message, stack, c, None, Undefined))
  }

  /** Peer-trap and producer errors: the constructor takes the cause, and prints it. */
  function WithPrintedCause(brand: Brand, message: string, stack: Option<string>, cause: Option<Obs>, progress: Prim): Option<Obs> {
    match cause
    case Some(c) => if Printable(c) then Some(OError(brand, message, stack, Some(c), None, progress)) else None
    case None => None
  }

  function Rehydrate(props: seq<Prop>): Option<Obs>
    decreases props, 1
  {
    var message := TextOr(Own(props, "message"), "");
    var stack := CarriedStack(Own(props, "stack"));
    match ReadTag(Own(props, TAG))
    case None => None
    case Some(BrandTag(ErrorContext)) => Some(OContext(message))
    case Some(BrandTag(WasiExit)) => Some(OExit(message, RawPrim(Own(props, "ok")), stack, RawPrim(Own(props, "code"))))
    case Some(BrandTag(ComponentException)) =>
      (match (DecodeField(props, "payload"), DecodeCause(props))
       case (Some(payload), Some(cause)) => Some(OError(ComponentException, message, stack, cause, Some(payload), Undefined))
       case _ => None)
    case Some(BrandTag(PeerTrapped)) =>
      var progress := RawPrim(Own(props, "progress"));
      WithPrintedCause(PeerTrapped, message, stack, DecodeField(props, "cause"),
                       if progress.Number? then progress else Undefined)
    case Some(BrandTag(StreamProducer)) =>
      WithPrintedCause(StreamProducer, message, stack, DecodeField(props, "cause"), Undefined)
    case Some(BrandTag(brand)) => WithCause(brand, message, stack, DecodeCause(props))
    case Some(PlainErrorTag) =>
      (match DecodeCause(props)
       case Some(cause) => Some(OPlainError(TextOr(Own(props, "name"), "Error"), message, stack, cause))
       case None => None)
  }

  // ---- the round-trip law ------------------------------------------------------------------

  /** The observation of an object from those of its parts. */
  ghost function ViewOf(o: Obj, ref: Ref, views: seq<Obs>): Obs
    requires |views| == |Parts(o)|
  {
    match SortOf(o)
    case ErrorOf(brand) =>
      OError(brand, o.message, o.stack, FirstIf(o.cause.Some?, views), LastIf(brand == ComponentException, views),
             if brand == PeerTrapped then o.progress else Undefined)
    case Context => OContext(o.message)
    case Exit => OExit(o.message, o.ok, o.stack, o.code)
    case PlainError => OPlainError(o.name, o.message, o.stack, FirstIf(o.cause.Some?, views))
    case Leaf => OOpaque(ref)
    case ArrayOf(_) => OArray(views)
    case ObjectOf(props) => OObject(Zip(props, views))
    case Handle => OOpaque(ref)
    case Foreign => OOpaque(ref)
  }

  function FirstIf(b: bool, kids: seq<Obs>): Option<Obs> {
    if b && |kids| > 0 then Some(kids[0]) else None
  }

  function LastIf(b: bool, kids: seq<Obs>): Option<Obs> {
    if b && |kids| > 0 then Some(kids[|kids| - 1]) else None
  }

  function Zip(props: seq<(string, Value)>, kids: seq<Obs>): seq<(string, Obs)>
    requires |props| == |kids|
  {
    if props == [] then [] else [(props[0].0, kids[0])] + Zip(props[1..], kids[1..])
  }

  /** What a matcher on the sending side can observe of a value; None of a function, a symbol or a
    * cycle. */
  ghost function Observe(h: Heap, v: Value, seen: set<Ref>): Option<Obs>
    requires Closed(h) && InHeap(h, v)
    decreases |h.Keys - seen|, 0, 0
  {
    match v
    case Plain(prim) => Some(OPrim(prim))
    case Object(r) =>
      if r in seen then None
      else
        Smaller(h, r, seen);
        assert AllInHeap(h, Parts(h[r]));
        (match ObserveAll(h, Parts(h[r]), seen + {r})
         case None => None
         case Some(views) => Some(ViewOf(h[r], r, views)))
    case _ => None
  }

  ghost function ObserveAll(h: Heap, vs: seq<Value>, seen: set<Ref>): (r: Option<seq<Obs>>)
    requires Closed(h) && AllInHeap(h, vs)
    ensures r.Some? ==> |r.value| == |vs|
    decreases |h.Keys - seen|, 1, |vs|
  {
    if vs == [] then Some([])
    else match (Observe(h, vs[0], seen), ObserveAll(h, vs[1..], seen))
      case (Some(o), Some(rest)) => Some([o] + rest)
      case _ => None
  }

  /** The object survives the crossing: a peer-trap or producer error has an own cause (the decoder
    * always gives it one) that prints, a peer trap's progress is a number if it has any, and no
    * property is named `__proto__`.  `views` are the observations of the parts. */
  ghost predicate Survives(o: Obj, views: seq<Obs>)
    requires |views| == |Parts(o)|
  {
    match SortOf(o)
    case ErrorOf(brand) =>
      && (brand == PeerTrapped || brand == StreamProducer ==> o.cause.Some? && |views| > 0 && Printable(views[0]))
      && (brand == PeerTrapped ==> o.progress == Undefined || o.progress.Number?)
    case ObjectOf(props) => NoProto(props)
    case _ => true
  }

  predicate NoProto(props: seq<(string, Value)>) {
    forall i :: 0 <= i < |props| ==> props[i].0 != PROTO
  }

  /** Every object inside the value survives. */
  ghost predicate AllSurvive(h: Heap, v: Value, seen: set<Ref>)
    requires Closed(h) && InHeap(h, v)
    decreases |h.Keys - seen|, 0, 0
  {
    if v.Object? && v.ref !in seen then
      Smaller(h, v.ref, seen);
      assert AllInHeap(h, Parts(h[v.ref]));
      var views := ObserveAll(h, Parts(h[v.ref]), seen + {v.ref});
      (views.Some? ==> Survives(h[v.ref], views.value)) && EachSurvives(h, Parts(h[v.ref]), seen + {v.ref})
    else true
  }

  ghost predicate EachSurvives(h: Heap, vs: seq<Value>, seen: set<Ref>)
    requires Closed(h) && AllInHeap(h, vs)
    decreases |h.Keys - seen|, 1, |vs|
  {
    vs != [] ==> AllSurvive(h, vs[0], seen) && EachSurvives(h, vs[1..], seen)
  }

  // What decoding makes of one object's data.

  predicate Accepted(o: Obj) {
    !Classify(o).RealmLocalClass? && !Classify(o).TagCarrier? && !Classify(o).ForeignClass?
  }

  function AssignedObs(props: seq<(string, Value)>, kids: seq<Obs>): seq<(string, Obs)>
    requires |props| == |kids|
  {
    if props == [] then []
    else (if props[0].0 == PROTO then [] else [(props[0].0, kids[0])]) + AssignedObs(props[1..], kids[1..])
  }

  function Decoded(o: Obj, ref: Ref, kids: seq<Obs>): Option<Obs>
    requires |kids| == |Children(o)|
  {
    match Classify(o)
    case BrandedError(brand) =>
      var cause := FirstIf(o.cause.Some?, kids);
      if brand == PeerTrapped || brand == StreamProducer then
        WithPrintedCause(brand, o.message, o.stack, Some(if cause.Some? then cause.value else OPrim(Undefined)),
                         if brand == PeerTrapped && o.progress.Number? then o.progress else Undefined)
      else Some(OError(brand, o.message, o.stack, cause, LastIf(brand == ComponentException, kids), Undefined))
    case ContextClass => Some(OContext(o.message))
    case ExitClass => Some(OExit(o.message, o.ok, o.stack, o.code))
    case PlainErrorClass => Some(OPlainError(o.name, o.message, o.stack, FirstIf(o.cause.Some?, kids)))
    case OpaqueClass => Some(OOpaque(ref))
    case ArrayClass => Some(OArray(kids))
    case PlainClass => Some(OObject(if o.shape.PlainShape? then AssignedObs(o.shape.props, kids) else []))
    case _ => None
  }

  lemma {:induction false} AssignedIsZip(props: seq<(string, Value)>, kids: seq<Obs>, seen: seq<Obs>)
    requires |props| == |kids| == |seen|
    ensures |AssignedObs(props, kids)| <= |props| && |Zip(props, seen)| == |props|
    ensures AssignedObs(props, kids) == Zip(props, seen) <==> NoProto(props) && kids == seen
  {
    if props != [] {
      AssignedIsZip(props[1..], kids[1..], seen[1..]);
      assert NoProto(props) <==> props[0].0 != PROTO && NoProto(props[1..]);
      assert kids == [kids[0]] + kids[1..] && seen == [seen[0]] + seen[1..];
      if AssignedObs(props, kids) == Zip(props, seen) {
        assert AssignedObs(props, kids)[1..] == Zip(props[1..], seen[1..]);
      }
    }
  }

  lemma DecodedIsView(o: Obj, ref: Ref, kids: seq<Obs>, seen: seq<Obs>)
    requires |kids| == |seen| == |Children(o)| && Accepted(o)
    ensures |Parts(o)| == |seen|
    ensures Decoded(o, ref, kids) == Some(ViewOf(o, ref, seen)) <==> Survives(o, seen) && kids == seen
  {
    ClassifiesSorts(o);
    WalksParts(o);
    hide Classify, Children, Printable;
    match SortOf(o)
    case ErrorOf(brand) =>
    case ObjectOf(props) => AssignedIsZip(props, kids, seen);
    case _ =>
  }

  // Reading an envelope back.

  lemma {:induction false} OwnAppend(a: seq<Prop>, b: seq<Prop>, k: string)
    ensures Own(a + b, k) == if Own(a, k).Some? then Own(a, k) else Own(b, k)
  {
    if a == [] {
      assert a + b == b;
    } else {
      assert (a + b)[1..] == a[1..] + b;
      OwnAppend(a[1..], b, k);
    }
  }

  lemma EnvelopeOwn(tag: Tag, own: Fields, k: string)
    ensures Envelope(tag, own).DObject?
    ensures Own(Envelope(tag, own).props, k) ==
      if k == TAG then Some(DPrim(String(TagText(tag)))) else if k == "name" then own.name
      else if k == "message" then own.message else if k == "ok" then own.ok else if k == "stack" then own.stack
      else if k == "cause" then own.cause else if k == "progress" then own.progress
      else if k == "payload" then own.payload else if k == "code" then own.code else None
  {
    hide TagText;
    var first := [Prop(TAG, DPrim(String(TagText(tag))))];
    var p1 := first + Opt("name", own.name);
    var p2 := p1 + Opt("message", own.message);
    var p3 := p2 + Opt("ok", own.ok);
    var p4 := p3 + Opt("stack", own.stack);
    var p5 := p4 + Opt("cause", own.cause);
    var p6 := p5 + Opt("progress", own.progress);
    var p7 := p6 + Opt("payload", own.payload);
    OwnAppend(first, Opt("name", own.name), k);
    OwnAppend(p1, Opt("message", own.message), k);
    OwnAppend(p2, Opt("ok", own.ok), k);
    OwnAppend(p3, Opt("stack", own.stack), k);
    OwnAppend(p4, Opt("cause", own.cause), k);
    OwnAppend(p5, Opt("progress", own.progress), k);
    OwnAppend(p6, Opt("payload", own.payload), k);
    OwnAppend(p7, Opt("code", own.code), k);
  }

  lemma NamesDiffer()
    ensures |TAG| == 22 && "name" != "code" && "cause" != "stack" && "message" != "payload"
  {
    assert "name"[0] != "code"[0] && "cause"[0] != "stack"[0] && "message"[0] != "payload"[0];
  }

  /** Every field of an envelope is found under its own name. */
  lemma EnvelopeReads(tag: Tag, own: Fields)
    ensures
      var e := Envelope(tag, own);
      && e.DObject? && Own(e.props, TAG) == Some(DPrim(String(TagText(tag))))
      && Own(e.props, "name") == own.name && Own(e.props, "message") == own.message && Own(e.props, "ok") == own.ok
      && Own(e.props, "stack") == own.stack && Own(e.props, "cause") == own.cause
      && Own(e.props, "progress") == own.progress && Own(e.props, "payload") == own.payload
      && Own(e.props, "code") == own.code
  {
    hide Envelope, TagText;
    NamesDiffer();
    EnvelopeOwn(tag, own, TAG);
    EnvelopeOwn(tag, own, "name");
    EnvelopeOwn(tag, own, "message");
    EnvelopeOwn(tag, own, "ok");
    EnvelopeOwn(tag, own, "stack");
    EnvelopeOwn(tag, own, "cause");
    EnvelopeOwn(tag, own, "progress");
    EnvelopeOwn(tag, own, "payload");
    EnvelopeOwn(tag, own, "code");
  }

  /** The kinds of envelope have texts of different lengths. */
  lemma TagLengths()
    ensures |TagText(BrandTag(ComponentException))| == 31
    ensures |TagText(BrandTag(Trap))| == 17
    ensures |TagText(BrandTag(Dropped))| == 20
    ensures |TagText(BrandTag(InvalidHandle))| == 26
    ensures |TagText(BrandTag(PeerTrapped))| == 24
    ensures |TagText(BrandTag(StreamProducer))| == 27
    ensures |TagText(BrandTag(ErrorContext))| == 25
    ensures |TagText(BrandTag(WasiExit))| == 21
    ensures |TagText(PlainErrorTag)| == 5
  {}

  lemma TagReads(tag: Tag)
    requires TagText(tag) != ""
    ensures ReadTag(Some(DPrim(String(TagText(tag))))) == Some(tag)
  {
    TagIsKnown(tag);
    hide TagText;
    TagLengths();
  }

  lemma TagIsKnown(tag: Tag)
    requires TagText(tag) != ""
    ensures tag.BrandTag? ==> tag.brand in {ComponentException, Trap, Dropped, InvalidHandle, PeerTrapped, StreamProducer, ErrorContext, WasiExit}
  {}

  /** The data of a plain object that the encoder lets pass is never an envelope. */
  lemma {:induction false} AssignedUntagged(props: seq<(string, Value)>, kids: seq<Data>)
    requires |props| == |kids| && !HasKey(props, TAG)
    ensures IndexOf(Assigned(props, kids), TAG) == |Assigned(props, kids)|
  {
    if props != [] {
      assert props[0].0 != TAG;
      assert forall i :: 0 <= i < |props[1..]| ==> props[1..][i] == props[i + 1];
      AssignedUntagged(props[1..], kids[1..]);
      if props[0].0 == PROTO {
        assert Assigned(props, kids) == Assigned(props[1..], kids[1..]);
      } else {
        assert Assigned(props, kids)[1..] == Assigned(props[1..], kids[1..]);
      }
    }
  }

  lemma {:induction false} DecodeAssigned(props: seq<(string, Value)>, kids: seq<Data>, os: seq<Obs>)
    requires |props| == |kids| == |os| && DecodeAll(kids) == Some(os)
    ensures DecodeProps(Assigned(props, kids)) == Some(AssignedObs(props, os))
  {
    if props != [] {
      DecodeAssigned(props[1..], kids[1..], os[1..]);
      if props[0].0 == PROTO {
        assert Assigned(props, kids) == Assigned(props[1..], kids[1..]);
        assert AssignedObs(props, os) == AssignedObs(props[1..], os[1..]);
      } else {
        assert Assigned(props, kids)[1..] == Assigned(props[1..], kids[1..]);
      }
    }
  }

  lemma {:induction false} FirstBrandIsError(brands: set<Brand>, i: nat)
    requires i <= |ERROR_BRANDS|
    ensures FirstErrorBrand(brands, i).Some? ==>
      FirstErrorBrand(brands, i).value in {ComponentException, Trap, Dropped, InvalidHandle, PeerTrapped, StreamProducer}
    decreases |ERROR_BRANDS| - i
  {
    if i < |ERROR_BRANDS| { FirstBrandIsError(brands, i + 1); }
  }

  lemma {:induction false} FirstAndLast(kids: seq<Data>, os: seq<Obs>)
    requires |kids| == |os| && DecodeAll(kids) == Some(os)
    ensures kids != [] ==> Decode(kids[0]) == Some(os[0]) && Decode(kids[|kids| - 1]) == Some(os[|os| - 1])
  {
    if |kids| > 1 { FirstAndLast(kids[1..], os[1..]); }
  }

  /** Decoding an envelope is rehydrating it from its tag and fields. */
  lemma DecodeEnvelope(tag: Tag, own: Fields)
    requires TagText(tag) != ""
    ensures
      var e := Envelope(tag, own);
      && e.DObject? && Decode(e) == Rehydrate(e.props) && ReadTag(Own(e.props, TAG)) == Some(tag)
  {
    hide Envelope, TagText, ReadTag, Rehydrate;
    EnvelopeReads(tag, own);
    TagReads(tag);
  }

  lemma FieldsDecode(props: seq<Prop>)
    ensures DecodeField(props, "cause") ==
      match Own(props, "cause") case Some(d) => Decode(d) case None => Some(OPrim(Undefined))
    ensures DecodeField(props, "payload") ==
      match Own(props, "payload") case Some(d) => Decode(d) case None => Some(OPrim(Undefined))
    ensures DecodeCause(props) ==
      match Own(props, "cause")
      case Some(d) => (match Decode(d) case Some(c) => Some(Some(c)) case None => None)
      case None => Some(None)
  {}

  lemma DecodeException(o: Obj, ref: Ref, kids: seq<Data>, os: seq<Obs>)
    requires Classify(o) == BrandedError(ComponentException)
    requires |kids| == |os| == |Children(o)| && DecodeAll(kids) == Some(os)
    ensures Decode(Envelope(BrandTag(ComponentException), BrandedFields(o, ComponentException, kids))) == Decoded(o, ref, os)
  {
    hide Envelope, ReadTag, DecodeAll, FirstErrorBrand, IsRealmLocal, Classify, Printable, Decode, Own, IndexOf, DecodeField, DecodeCause;
    var own := BrandedFields(o, ComponentException, kids);
    FirstAndLast(kids, os);
    DecodeEnvelope(BrandTag(ComponentException), own);
    EnvelopeReads(BrandTag(ComponentException), own);
    FieldsDecode(Envelope(BrandTag(ComponentException), own).props);
  }

  lemma DecodePrinted(o: Obj, ref: Ref, brand: Brand, kids: seq<Data>, os: seq<Obs>)
    requires Classify(o) == BrandedError(brand) && (brand == PeerTrapped || brand == StreamProducer)
    requires |kids| == |os| == |Children(o)| && DecodeAll(kids) == Some(os)
    ensures Decode(Envelope(BrandTag(brand), BrandedFields(o, brand, kids))) == Decoded(o, ref, os)
  {
    hide Envelope, ReadTag, DecodeAll, FirstErrorBrand, IsRealmLocal, Classify, Printable, Decode, Own, IndexOf, DecodeField, DecodeCause;
    var own := BrandedFields(o, brand, kids);
    FirstAndLast(kids, os);
    DecodeEnvelope(BrandTag(brand), own);
    EnvelopeReads(BrandTag(brand), own);
    FieldsDecode(Envelope(BrandTag(brand), own).props);
  }

  lemma DecodeCaused(o: Obj, ref: Ref, brand: Brand, kids: seq<Data>, os: seq<Obs>)
    requires Classify(o) == BrandedError(brand) && (brand == Trap || brand == Dropped || brand == InvalidHandle)
    requires |kids| == |os| == |Children(o)| && DecodeAll(kids) == Some(os)
    ensures Decode(Envelope(BrandTag(brand), BrandedFields(o, brand, kids))) == Decoded(o, ref, os)
  {
    hide Envelope, ReadTag, DecodeAll, FirstErrorBrand, IsRealmLocal, Classify, Printable, Decode, Own, IndexOf, DecodeField, DecodeCause;
    var own := BrandedFields(o, brand, kids);
    FirstAndLast(kids, os);
    DecodeEnvelope(BrandTag(brand), own);
    EnvelopeReads(BrandTag(brand), own);
    FieldsDecode(Envelope(BrandTag(brand), own).props);
  }

  lemma DecodeBranded(o: Obj, ref: Ref, brand: Brand, kids: seq<Data>, os: seq<Obs>)
    requires Classify(o) == BrandedError(brand) && |kids| == |os| == |Children(o)| && DecodeAll(kids) == Some(os)
    ensures Decode(Envelope(BrandTag(brand), BrandedFields(o, brand, kids))) == Decoded(o, ref, os)
  {
    hide Envelope, BrandedFields, Decode, Decoded, DecodeAll, FirstErrorBrand, IsRealmLocal, Children;
    FirstBrandIsError(o.brands, 0);
    match brand
    case ComponentException => DecodeException(o, ref, kids, os);
    case PeerTrapped => DecodePrinted(o, ref, brand, kids, os);
    case StreamProducer => DecodePrinted(o, ref, brand, kids, os);
    case _ => DecodeCaused(o, ref, brand, kids, os);
  }

  lemma DecodePlainError(o: Obj, ref: Ref, kids: seq<Data>, os: seq<Obs>)
    requires Classify(o) == PlainErrorClass && |kids| == |os| == |Children(o)| && DecodeAll(kids) == Some(os)
    requires Build(o, ref, kids).Ok?
    ensures Decode(Build(o, ref, kids).value) == Decoded(o, ref, os)
  {
    hide Envelope, ReadTag, DecodeAll, FirstErrorBrand, IsRealmLocal, Classify, Decode, Own, IndexOf, DecodeField, DecodeCause;
    var own := NO_FIELDS.(name := Text(o.name), message := Text(o.message), stack := StackField(o), cause := CauseField(o, kids));
    FirstAndLast(kids, os);
    DecodeEnvelope(PlainErrorTag, own);
    EnvelopeReads(PlainErrorTag, own);
    FieldsDecode(Envelope(PlainErrorTag, own).props);
  }

  lemma DecodeContext(o: Obj, ref: Ref, kids: seq<Data>, os: seq<Obs>)
    requires Classify(o) == ContextClass && |kids| == |os| == |Children(o)| && Build(o, ref, kids).Ok?
    ensures Decode(Build(o, ref, kids).value) == Decoded(o, ref, os)
  {
    hide Envelope, ReadTag, FirstErrorBrand, IsRealmLocal, Classify, Decode, Own, IndexOf, DecodeField, DecodeCause;
    var own := NO_FIELDS.(message := Text(o.message));
    DecodeEnvelope(BrandTag(ErrorContext), own);
    EnvelopeReads(BrandTag(ErrorContext), own);
  }

  lemma DecodeExit(o: Obj, ref: Ref, kids: seq<Data>, os: seq<Obs>)
    requires Classify(o) == ExitClass && |kids| == |os| == |Children(o)| && Build(o, ref, kids).Ok?
    ensures Decode(Build(o, ref, kids).value) == Decoded(o, ref, os)
  {
    hide Envelope, ReadTag, FirstErrorBrand, IsRealmLocal, Classify, Decode, Own, IndexOf, DecodeField, DecodeCause;
    var own := NO_FIELDS.(message := Text(o.message), ok := Some(DPrim(o.ok)), stack := StackField(o), code := IfDefined(o.code));
    DecodeEnvelope(BrandTag(WasiExit), own);
    EnvelopeReads(BrandTag(WasiExit), own);
  }

  /** Decoding the data of an object whose children decode to `os`.  For a plain object this needs
    * the encoder's refusal of tag carriers. */
  lemma DecodeBuilt(o: Obj, ref: Ref, kids: seq<Data>, os: seq<Obs>)
    requires |kids| == |os| == |Children(o)| && DecodeAll(kids) == Some(os) && Build(o, ref, kids).Ok?
    ensures Decode(Build(o, ref, kids).value) == Decoded(o, ref, os)
  {
    hide FirstErrorBrand, IsRealmLocal, Envelope, Rehydrate;
    match Classify(o)
    case BrandedError(brand) => DecodeBranded(o, ref, brand, kids, os);
    case PlainErrorClass => DecodePlainError(o, ref, kids, os);
    case ContextClass => DecodeContext(o, ref, kids, os);
    case ExitClass => DecodeExit(o, ref, kids, os);
    case PlainClass =>
      AssignedUntagged(o.shape.props, kids);
      DecodeAssigned(o.shape.props, kids, os);
    case _ =>
  }

  // A child that does not decode.

  lemma {:induction false} AllAssigned(props: seq<(string, Value)>, kids: seq<Data>)
    requires |props| == |kids| && DecodeProps(Assigned(props, kids)).Some?
    ensures |DecodeProps(Assigned(props, kids)).value| <= |props|
    ensures |DecodeProps(Assigned(props, kids)).value| == |props| ==> DecodeAll(kids).Some?
  {
    if props != [] {
      if props[0].0 == PROTO {
        assert Assigned(props, kids) == Assigned(props[1..], kids[1..]);
      } else {
        assert Assigned(props, kids)[1..] == Assigned(props[1..], kids[1..]);
      }
      AllAssigned(props[1..], kids[1..]);
    }
  }

  lemma {:induction false} ZipLength(props: seq<(string, Value)>, kids: seq<Obs>)
    requires |props| == |kids|
    ensures |Zip(props, kids)| == |props|
  {
    if props != [] { ZipLength(props[1..], kids[1..]); }
  }

  lemma {:induction false} UndecodedEnd(kids: seq<Data>)
    requires DecodeAll(kids).None? && |kids| <= 2
    ensures kids != [] && (Decode(kids[0]).None? || Decode(kids[|kids| - 1]).None?)
  {
    if |kids| == 2 && Decode(kids[0]).Some? { UndecodedEnd(kids[1..]); }
  }

  lemma UndecodedException(o: Obj, kids: seq<Data>)
    requires Classify(o) == BrandedError(ComponentException) && |kids| == |Children(o)| && DecodeAll(kids).None?
    ensures Decode(Envelope(BrandTag(ComponentException), BrandedFields(o, ComponentException, kids))).None?
  {
    hide Envelope, ReadTag, DecodeAll, FirstErrorBrand, IsRealmLocal, Classify, Printable, Decode, Own, IndexOf, DecodeField, DecodeCause;
    var own := BrandedFields(o, ComponentException, kids);
    UndecodedEnd(kids);
    DecodeEnvelope(BrandTag(ComponentException), own);
    EnvelopeReads(BrandTag(ComponentException), own);
    FieldsDecode(Envelope(BrandTag(ComponentException), own).props);
  }

  lemma UndecodedCause(o: Obj, brand: Brand, kids: seq<Data>)
    requires Classify(o) == BrandedError(brand) && brand != ComponentException
    requires brand in {Trap, Dropped, InvalidHandle, PeerTrapped, StreamProducer}
    requires |kids| == |Children(o)| && DecodeAll(kids).None?
    ensures Decode(Envelope(BrandTag(brand), BrandedFields(o, brand, kids))).None?
  {
    hide Envelope, ReadTag, DecodeAll, FirstErrorBrand, IsRealmLocal, Classify, Printable, Decode, Own, IndexOf, DecodeField, DecodeCause;
    var own := BrandedFields(o, brand, kids);
    UndecodedEnd(kids);
    DecodeEnvelope(BrandTag(brand), own);
    EnvelopeReads(BrandTag(brand), own);
    FieldsDecode(Envelope(BrandTag(brand), own).props);
  }

  lemma UndecodedBranded(o: Obj, brand: Brand, kids: seq<Data>)
    requires Classify(o) == BrandedError(brand) && |kids| == |Children(o)| && DecodeAll(kids).None?
    ensures Decode(Envelope(BrandTag(brand), BrandedFields(o, brand, kids))).None?
  {
    hide Envelope, BrandedFields, Decode, DecodeAll, FirstErrorBrand, IsRealmLocal, Children;
    FirstBrandIsError(o.brands, 0);
    if brand == ComponentException { UndecodedException(o, kids); } else { UndecodedCause(o, brand, kids); }
  }

  lemma UndecodedPlainError(o: Obj, ref: Ref, kids: seq<Data>)
    requires Classify(o) == PlainErrorClass && |kids| == |Children(o)| && DecodeAll(kids).None? && Build(o, ref, kids).Ok?
    ensures Decode(Build(o, ref, kids).value).None?
  {
    hide Envelope, ReadTag, FirstErrorBrand, IsRealmLocal;
    var own := NO_FIELDS.(name := Text(o.name), message := Text(o.message), stack := StackField(o), cause := CauseField(o, kids));
    DecodeEnvelope(PlainErrorTag, own);
    EnvelopeReads(PlainErrorTag, own);
  }

  /** Where a child does not decode, the object does not come back. */
  lemma UndecodedChild(o: Obj, ref: Ref, kids: seq<Data>, views: seq<Obs>)
    requires |kids| == |views| == |Children(o)| && DecodeAll(kids).None? && Build(o, ref, kids).Ok?
    ensures |Parts(o)| == |views| && Decode(Build(o, ref, kids).value) != Some(ViewOf(o, ref, views))
  {
    BuildAccepts(o, ref, kids);
    ClassifiesSorts(o);
    hide FirstErrorBrand, IsRealmLocal, Envelope, Rehydrate;
    match Classify(o)
    case BrandedError(brand) => UndecodedBranded(o, brand, kids);
    case PlainErrorClass => UndecodedPlainError(o, ref, kids);
    case PlainClass =>
      AssignedUntagged(o.shape.props, kids);
      ZipLength(o.shape.props, views);
      if DecodeProps(Assigned(o.shape.props, kids)).Some? { AllAssigned(o.shape.props, kids); }
    case _ =>
  }

  /** What toCloneable makes of a value decodes to what the sender could observe exactly when every
    * object of the walk survives. */
  lemma {:induction false} RoundTrip(h: Heap, v: Value, seen: set<Ref>)
    requires Closed(h) && InHeap(h, v) && Encode(h, v, seen).Ok?
    ensures Observe(h, v, seen).Some?
    ensures Decode(Encode(h, v, seen).value) == Observe(h, v, seen) <==> AllSurvive(h, v, seen)
    decreases |h.Keys - seen|, 0, 0
  {
    hide Build, ViewOf, Decoded, Classify, Children, Survives, Rehydrate, Parts;
    match v
    case Object(r) =>
      Smaller(h, r, seen);
      ChildrenInHeap(h, r);
      var kids := EncodeAll(h, Children(h[r]), seen + {r}).value;
      BuildAccepts(h[r], r, kids);
      RoundTripAll(h, Parts(h[r]), seen + {r});
      var views := ObserveAll(h, Parts(h[r]), seen + {r}).value;
      match DecodeAll(kids) {
        case None => UndecodedChild(h[r], r, kids, views);
        case Some(os) =>
          DecodeBuilt(h[r], r, kids, os);
          DecodedIsView(h[r], r, os, views);
      }
    case _ =>
  }

  lemma BuildAccepts(o: Obj, ref: Ref, kids: seq<Data>)
    requires |kids| == |Children(o)| && Build(o, ref, kids).Ok?
    ensures Accepted(o) && Children(o) == Parts(o)
  {
    WalksParts(o);
  }

  lemma {:induction false} RoundTripAll(h: Heap, vs: seq<Value>, seen: set<Ref>)
    requires Closed(h) && AllInHeap(h, vs) && EncodeAll(h, vs, seen).Ok?
    ensures ObserveAll(h, vs, seen).Some?
    ensures DecodeAll(EncodeAll(h, vs, seen).value) == ObserveAll(h, vs, seen) <==> EachSurvives(h, vs, seen)
    decreases |h.Keys - seen|, 1, |vs|
  {
    if vs != [] {
      RoundTrip(h, vs[0], seen);
      RoundTripAll(h, vs[1..], seen);
      var d, rest := Encode(h, vs[0], seen).value, EncodeAll(h, vs[1..], seen).value;
      assert ([d] + rest)[1..] == rest;
      if Decode(d).Some? && DecodeAll(rest).Some? {
        SameCons(Decode(d).value, DecodeAll(rest).value, Observe(h, vs[0], seen).value, ObserveAll(h, vs[1..], seen).value);
      }
    }
  }

  // ---- what the conditions keep out --------------------------------------------------------

  /** An object that carries the tag never decodes to a plain object. */
  lemma {:induction false} TaggedAssigned(props: seq<(string, Value)>, kids: seq<Data>)
    requires |props| == |kids| && HasKey(props, TAG)
    ensures IndexOf(Assigned(props, kids), TAG) < |Assigned(props, kids)|
  {
    if props[0].0 != TAG {
      var i :| 0 <= i < |props| && props[i].0 == TAG;
      assert props[1..][i - 1].0 == TAG;
      TaggedAssigned(props[1..], kids[1..]);
      if props[0].0 == PROTO {
        assert Assigned(props, kids) == Assigned(props[1..], kids[1..]);
      } else {
        assert Assigned(props, kids)[1..] == Assigned(props[1..], kids[1..]);
      }
    } else {
      assert TAG[0] != PROTO[0];
    }
  }

  /** Why tag carriers are refused: encoded like any plain object, one would come back as an error,
    * an error context or an exit, or not at all, and a plain object that is not one always comes
    * back as a plain object when its members decode. */
  lemma RefusalIsNeeded(props: seq<(string, Value)>, kids: seq<Data>)
    requires |props| == |kids| && DecodeAll(kids).Some?
    ensures
      var back := Decode(DObject(Assigned(props, kids)));
      back.Some? && back.value.OObject? <==> !HasKey(props, TAG)
  {
    hide ReadTag, Own;
    if HasKey(props, TAG) {
      TaggedAssigned(props, kids);
    } else {
      AssignedUntagged(props, kids);
      DecodeAssigned(props, kids, DecodeAll(kids).value);
    }
  }

  /** A field that is a text. */
  predicate IsText(d: Option<Data>) {
    d.Some? && d.value.DPrim? && d.value.prim.String?
  }

  /** The kind of value that a tag stands for. */
  predicate TaggedAs(o: Obs, tag: string) {
    match o
    case OError(brand, _, _, _, _, _) =>
      || (brand == ComponentException && tag == "polyengine.componentException/1")
      || (brand == Trap && tag == "polyengine.trap/1")
      || (brand == Dropped && tag == "polyengine.dropped/1")
      || (brand == InvalidHandle && tag == "polyengine.invalidHandle/1")
      || (brand == PeerTrapped && tag == "polyengine.peerTrapped/1")
      || (brand == StreamProducer && tag == "polyengine.streamProducer/1")
    case OContext(_) => tag == "polyengine.errorContext/1"
    case OExit(_, _, _, _) => tag == "polyengine.wasiExit/1"
    case OPlainError(_, _, _, _) => tag == "error"
    case _ => false
  }

  function MessageOf(o: Obs): string {
    match o
    case OError(_, message, _, _, _, _) => message
    case OContext(message) => message
    case OExit(message, _, _, _) => message
    case OPlainError(_, message, _, _) => message
    case _ => ""
  }

  function StackOf(o: Obs): Option<string> {
    match o
    case OError(_, _, stack, _, _, _) => stack
    case OExit(_, _, stack, _) => stack
    case OPlainError(_, _, stack, _) => stack
    case _ => None
  }

  lemma ReadTagText(d: Option<Data>)
    ensures ReadTag(d).Some? ==> d == Some(DPrim(String(TagText(ReadTag(d).value))))
  {
    hide TagText;
  }

  /** The value made for a kind of envelope. */
  predicate MadeFor(o: Obs, tag: Tag) {
    match tag
    case BrandTag(ErrorContext) => o.OContext?
    case BrandTag(WasiExit) => o.OExit?
    case BrandTag(brand) => o.OError? && o.brand == brand
    case PlainErrorTag => o.OPlainError?
  }

  lemma MadeForTag(o: Obs, tag: Tag)
    requires MadeFor(o, tag) && TagText(tag) != ""
    ensures TaggedAs(o, TagText(tag))
  {}

  lemma KnownTag(d: Option<Data>)
    requires ReadTag(d).Some?
    ensures TagText(ReadTag(d).value) != ""
  {
    TagLengths();
    hide TagText;
  }

  lemma RehydratedKind(props: seq<Prop>)
    requires Rehydrate(props).Some?
    ensures ReadTag(Own(props, TAG)).Some? && MadeFor(Rehydrate(props).value, ReadTag(Own(props, TAG)).value)
    ensures MessageOf(Rehydrate(props).value) == TextOr(Own(props, "message"), "")
    ensures !Rehydrate(props).value.OContext? ==> StackOf(Rehydrate(props).value) == CarriedStack(Own(props, "stack"))
    ensures Rehydrate(props).value.OPlainError? ==> Rehydrate(props).value.name == TextOr(Own(props, "name"), "Error")
  {
    hide Own, IndexOf, DecodeField, DecodeCause, ReadTag, TextOr, CarriedStack, Printable;
  }

  /** Whatever tagged data is decoded, an unknown tag is refused and a known one makes the kind of
    * value it stands for, with the message, stack and name that the data holds as texts. */
  lemma TagDecides(props: seq<Prop>)
    requires IndexOf(props, TAG) < |props|
    ensures
      var back := Decode(DObject(props));
      var tag, message, stack, name := Own(props, TAG), Own(props, "message"), Own(props, "stack"), Own(props, "name");
      back.Some? ==>
        && IsText(tag) && TaggedAs(back.value, tag.value.prim.s)
        && MessageOf(back.value) == (if IsText(message) then message.value.prim.s else "")
        && (!back.value.OContext? ==>
              StackOf(back.value) == if IsText(stack) then Some(stack.value.prim.s) else None)
        && (back.value.OPlainError? ==> back.value.name == if IsText(name) then name.value.prim.s else "Error")
  {
    hide Own, IndexOf, Rehydrate, TaggedAs, MadeFor, TagText, ReadTag;
    if Rehydrate(props).Some? {
      var d := Own(props, TAG);
      RehydratedKind(props);
      ReadTagText(d);
      KnownTag(d);
      MadeForTag(Rehydrate(props).value, ReadTag(d).value);
    }
  }

  /** An object with the given brands and shape, and nothing else to it. */
  function Bare(brands: set<Brand>, shape: Shape): Obj {
    Obj(brands, shape, "", "", None, None, Plain(Undefined), Undefined, Undefined, Undefined)
  }

  /** One object whose children are known crosses like this. */
  lemma Crossing(h: Heap, r: Ref, seen: set<Ref>, kids: seq<Data>, os: seq<Obs>)
    requires r in h && r !in seen && Closed(h) && AllInHeap(h, Children(h[r])) && Children(h[r]) == Parts(h[r])
    requires EncodeAll(h, Children(h[r]), seen + {r}) == Ok(kids) && DecodeAll(kids) == Some(os)
    requires ObserveAll(h, Children(h[r]), seen + {r}) == Some(os) && Build(h[r], r, kids).Ok?
    ensures Encode(h, Object(r), seen).Ok? && Decode(Encode(h, Object(r), seen).value) == Decoded(h[r], r, os)
    ensures Observe(h, Object(r), seen) == Some(ViewOf(h[r], r, os))
  {
    hide Build, Decoded, ViewOf, Classify;
    DecodeBuilt(h[r], r, kids, os);
  }

  lemma OnePrim(h: Heap, p: Prim, seen: set<Ref>)
    requires Closed(h)
    ensures EncodeAll(h, [Plain(p)], seen) == Ok([DPrim(p)]) && ObserveAll(h, [Plain(p)], seen) == Some([OPrim(p)])
    ensures DecodeAll([DPrim(p)]) == Some([OPrim(p)])
  {
    var v, d, o := [Plain(p)], [DPrim(p)], [OPrim(p)];
    assert v[1..] == [] && d[1..] == [];
    assert EncodeAll(h, v[1..], seen) == Ok([]) && ObserveAll(h, v[1..], seen) == Some([]) && DecodeAll(d[1..]) == Some([]);
    assert d == [DPrim(p)] + [] && o == [OPrim(p)] + [];
  }

  lemma OneObject(h: Heap, r: Ref, seen: set<Ref>, d: Data, view: Obs)
    requires Closed(h) && r in h && Encode(h, Object(r), seen) == Ok(d) && Decode(d) == Some(view)
    requires Observe(h, Object(r), seen) == Some(view)
    ensures EncodeAll(h, [Object(r)], seen) == Ok([d]) && DecodeAll([d]) == Some([view])
    ensures ObserveAll(h, [Object(r)], seen) == Some([view])
  {
    hide Encode, Decode, Observe;
    var v := [Object(r)];
    assert v[1..] == [] && [d][1..] == [];
    assert EncodeAll(h, v[1..], seen) == Ok([]) && ObserveAll(h, v[1..], seen) == Some([]) && DecodeAll([d][1..]) == Some([]);
    assert [d] == [d] + [] && [view] == [view] + [];
  }

  lemma BareClass(brand: Brand)
    ensures FirstErrorBrand({}, 0) == None && !IsRealmLocal({})
    ensures brand == PeerTrapped || brand == StreamProducer ==> FirstErrorBrand({brand}, 0) == Some(brand)
  {}

  lemma OneAssigned(props: seq<(string, Value)>, kids: seq<Data>)
    requires |props| == |kids| == 1
    ensures Assigned(props, kids) == if props[0].0 == PROTO then [] else [Prop(props[0].0, kids[0])]
  {
    assert Assigned(props[1..], kids[1..]) == [];
  }

  lemma OneSeen(props: seq<(string, Value)>, kids: seq<Obs>)
    requires |props| == |kids| == 1
    ensures AssignedObs(props, kids) == if props[0].0 == PROTO then [] else [(props[0].0, kids[0])]
    ensures Zip(props, kids) == [(props[0].0, kids[0])]
  {
    assert AssignedObs(props[1..], kids[1..]) == [] && Zip(props[1..], kids[1..]) == [];
  }

  lemma TrapEnvelope(m: string)
    ensures
      Decode(DObject([Prop(TAG, DPrim(String("polyengine.trap/1"))), Prop("message", DPrim(String(m)))]))
      == Some(OError(Trap, m, None, None, None, Undefined))
  {
    hide ReadTag, Own, IndexOf, Decode;
    var own := NO_FIELDS.(message := Text(m));
    assert Envelope(BrandTag(Trap), own).props
      == [Prop(TAG, DPrim(String("polyengine.trap/1"))), Prop("message", DPrim(String(m)))];
    DecodeEnvelope(BrandTag(Trap), own);
    EnvelopeReads(BrandTag(Trap), own);
    FieldsDecode(Envelope(BrandTag(Trap), own).props);
  }

  /** A plain object spelled like a trap's envelope: refused, and a trap if it were not. */
  lemma CarrierExample()
    ensures
      var props := [(TAG, Plain(String("polyengine.trap/1"))), ("message", Plain(String("m")))];
      var kids := [DPrim(String("polyengine.trap/1")), DPrim(String("m"))];
      var h: Heap := map[0 := Bare({}, PlainShape(props))];
      && Closed(h) && Encode(h, Object(0), {}) == Err(CarriesTag)
      && Decode(DObject(Assigned(props, kids))) == Some(OError(Trap, "m", None, None, None, Undefined))
  {
    hide Decode, Rehydrate, ReadTag, Own, FirstErrorBrand, IsRealmLocal;
    BareClass(Trap);
    TrapEnvelope("m");
    var props := [(TAG, Plain(String("polyengine.trap/1"))), ("message", Plain(String("m")))];
    var kids := [DPrim(String("polyengine.trap/1")), DPrim(String("m"))];
    assert props[0].0 == TAG;
    assert TAG[0] != PROTO[0] && "message"[0] != PROTO[0];
    OneAssigned(props[1..], kids[1..]);
    assert Assigned(props, kids) == [Prop(TAG, kids[0]), Prop("message", kids[1])];
  }

  /** A peer trap without an own cause comes back with the own cause `undefined`. */
  lemma NoCauseExample()
    ensures
      var h: Heap := map[0 := Bare({PeerTrapped}, ErrorShape)];
      && Closed(h) && Encode(h, Object(0), {}).Ok?
      && Observe(h, Object(0), {}) == Some(OError(PeerTrapped, "", None, None, None, Undefined))
      && Decode(Encode(h, Object(0), {}).value) == Some(OError(PeerTrapped, "", None, Some(OPrim(Undefined)), None, Undefined))
  {
    hide FirstErrorBrand, Encode, Decode, Observe;
    BareClass(PeerTrapped);
    var h: Heap := map[0 := Bare({PeerTrapped}, ErrorShape)];
    assert Children(h[0]) == [] == Parts(h[0]);
    Crossing(h, 0, {}, [], []);
  }

  /** Progress that is not a number is lost. */
  lemma ProgressExample()
    ensures
      var h: Heap := map[0 := Bare({PeerTrapped}, ErrorShape).(cause := Some(Plain(Null)), progress := String("half"))];
      && Closed(h) && Encode(h, Object(0), {}).Ok?
      && Observe(h, Object(0), {}) == Some(OError(PeerTrapped, "", None, Some(OPrim(Null)), None, String("half")))
      && Decode(Encode(h, Object(0), {}).value) == Some(OError(PeerTrapped, "", None, Some(OPrim(Null)), None, Undefined))
  {
    hide FirstErrorBrand, Encode, Decode, Observe;
    BareClass(PeerTrapped);
    var h: Heap := map[0 := Bare({PeerTrapped}, ErrorShape).(cause := Some(Plain(Null)), progress := String("half"))];
    assert Children(h[0]) == [Plain(Null)] == Parts(h[0]);
    OnePrim(h, Null, {} + {0});
    Crossing(h, 0, {}, [DPrim(Null)], [OPrim(Null)]);
  }

  /** An own property named `__proto__` is lost. */
  lemma ProtoExample()
    ensures
      var h: Heap := map[0 := Bare({}, PlainShape([(PROTO, Plain(Null))]))];
      && Closed(h) && Encode(h, Object(0), {}).Ok?
      && Observe(h, Object(0), {}) == Some(OObject([(PROTO, OPrim(Null))]))
      && Decode(Encode(h, Object(0), {}).value) == Some(OObject([]))
  {
    hide FirstErrorBrand, IsRealmLocal, Encode, Decode, Observe;
    BareClass(Trap);
    var props := [(PROTO, Plain(Null))];
    var h: Heap := map[0 := Bare({}, PlainShape(props))];
    assert PROTO != TAG;
    assert Children(h[0]) == [Plain(Null)] == Parts(h[0]);
    assert props[1..] == [];
    OnePrim(h, Null, {} + {0});
    OneSeen(props, [OPrim(Null)]);
    Crossing(h, 0, {}, [DPrim(Null)], [OPrim(Null)]);
  }

  /** What a plain object with a `toString` is encoded to. */
  lemma UnprintableCause(h: Heap)
    requires Closed(h) && 1 in h && h[1] == Bare({}, PlainShape([("toString", Plain(Null))]))
    ensures Encode(h, Object(1), {} + {0}).Ok?
    ensures
      var view := OObject([("toString", OPrim(Null))]);
      && Decode(Encode(h, Object(1), {} + {0}).value) == Some(view) && Observe(h, Object(1), {} + {0}) == Some(view)
      && !Printable(view)
  {
    hide FirstErrorBrand, IsRealmLocal, Encode, Decode, Observe;
    BareClass(StreamProducer);
    var props := [("toString", Plain(Null))];
    assert "toString"[0] != TAG[0] && "toString"[0] != PROTO[0];
    assert Children(h[1]) == [Plain(Null)] == Parts(h[1]);
    OnePrim(h, Null, {} + {0} + {1});
    OneSeen(props, [OPrim(Null)]);
    assert [("toString", OPrim(Null))][0].0 == "toString";
    Crossing(h, 1, {} + {0}, [DPrim(Null)], [OPrim(Null)]);
  }

  /** A producer error whose cause does not print is encoded and then not rehydrated. */
  lemma PrintExample()
    ensures
      var h: Heap := map[0 := Bare({StreamProducer}, ErrorShape).(cause := Some(Object(1))),
                         1 := Bare({}, PlainShape([("toString", Plain(Null))]))];
      && Closed(h) && Encode(h, Object(0), {}).Ok? && Observe(h, Object(0), {}).Some?
      && Decode(Encode(h, Object(0), {}).value) == None
  {
    hide FirstErrorBrand, IsRealmLocal, Encode, Decode, Observe, Printable;
    BareClass(StreamProducer);
    var h: Heap := map[0 := Bare({StreamProducer}, ErrorShape).(cause := Some(Object(1))),
                       1 := Bare({}, PlainShape([("toString", Plain(Null))]))];
    UnprintableCause(h);
    assert Children(h[0]) == [Object(1)] == Parts(h[0]);
    var d := Encode(h, Object(1), {} + {0}).value;
    var view := OObject([("toString", OPrim(Null))]);
    OneObject(h, 1, {} + {0}, d, view);
    Crossing(h, 0, {}, [d], [view]);
  }
}
