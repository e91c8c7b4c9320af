/** crates/bindgen/src/digest.rs: compute, collect_resource_names, canon_items, canon_interface and
  * canon_func.  The hash is a function of the canonical document built here.
  */
module WorldDigest {
  import opened Prelude
  import opened StableSort
  import opened CanonicalJson
  import opened TypeTable
  import opened TypeShapes

  type InterfaceId = nat
  type PackageId = nat
  type WorldId = nat

  datatype Package = Package(namespace: string, name: string, version: Option<string>)

  datatype NamedType = NamedType(name: string, id: TypeId)

  datatype Param = Param(name: string, ty: Type)

  datatype FunctionKind =
    | Freestanding | AsyncFreestanding
    | Method(resource: TypeId) | AsyncMethod(resource: TypeId)
    | Static(resource: TypeId) | AsyncStatic(resource: TypeId)
    | Constructor(resource: TypeId)

  datatype Function = Function(name: string, kind: FunctionKind, params: seq<Param>, result: Option<Type>)

  datatype Interface = Interface(
    name: Option<string>, package: Option<PackageId>, types: seq<NamedType>, functions: seq<Function>)

  datatype Key = ByName(name: string) | ByInterface(id: InterfaceId)
  datatype Item = FunctionItem(f: Function) | InterfaceItem(interface: InterfaceId) | TypeItem(id: TypeId)
  datatype Entry = Entry(key: Key, item: Item)
  datatype World = World(imports: seq<Entry>, exports: seq<Entry>)

  datatype Resolve = Resolve(
    types: Table, interfaces: map<InterfaceId, Interface>, packages: map<PackageId, Package>,
    worlds: map<WorldId, World>)

  // ---- every id has an entry -------------------------------------------------------------------

  predicate Known(table: Table, ty: Type) {
    ty.Id? ==> ty.id in table
  }

  predicate ClosedFunction(table: Table, f: Function) {
    && (forall i :: 0 <= i < |f.params| ==> Known(table, f.params[i].ty))
    && (f.result.Some? ==> Known(table, f.result.value))
  }

  predicate ClosedInterface(res: Resolve, iface: Interface) {
    && (iface.package.Some? ==> iface.package.value in res.packages)
    && (forall i :: 0 <= i < |iface.types| ==> iface.types[i].id in res.types)
    && (forall i :: 0 <= i < |iface.functions| ==> ClosedFunction(res.types, iface.functions[i]))
  }

  predicate ClosedEntry(res: Resolve, e: Entry) {
    match e.item
    case FunctionItem(f) => ClosedFunction(res.types, f)
    case InterfaceItem(id) => id in res.interfaces && ClosedInterface(res, res.interfaces[id])
    case TypeItem(id) => id in res.types
  }

  predicate ClosedEntries(res: Resolve, entries: seq<Entry>) {
    forall i :: 0 <= i < |entries| ==> ClosedEntry(res, entries[i])
  }

  /** A resolved package set: ids have entries and value types are not circular. */
  ghost predicate Resolved(res: Resolve, rank: map<TypeId, nat>) {
    && Acyclic(res.types, rank)
    && forall w :: w in res.worlds ==>
         ClosedEntries(res, res.worlds[w].imports) && ClosedEntries(res, res.worlds[w].exports)
  }

  // ---- collecting what each element contributes ------------------------------------------------

  /** The contributions in order, or None if one of them failed. */
  function Gather<T>(parts: seq<Option<seq<T>>>): Option<seq<T>> {
    if parts == [] then Some([])
    else
      var last := |parts| - 1;
      var before := Gather(parts[..last]);
      if before.None? || parts[last].None? then None else Some(before.value + parts[last].value)
  }

  lemma {:induction false} GatherNone<T>(parts: seq<Option<seq<T>>>, i: nat)
    requires i < |parts| && parts[i].None?
    ensures Gather(parts) == None
  {
    if i < |parts| - 1 { GatherNone(parts[..|parts| - 1], i); }
  }

  lemma GatherMore<T>(parts: seq<Option<seq<T>>>, i: nat)
    requires i < |parts|
    ensures Gather(parts[..i + 1])
         == (var before := Gather(parts[..i]);
             if before.None? || parts[i].None? then None else Some(before.value + parts[i].value))
  {
    assert parts[..i + 1][..i] == parts[..i];
  }

  // ---- names -----------------------------------------------------------------------------------

  function QualifiedInterfaceName(res: Resolve, iface: Interface): Option<string>
    requires ClosedInterface(res, iface)
  {
    if iface.name.None? || iface.package.None? then None
    else
      var pkg := res.packages[iface.package.value];
      var s := pkg.namespace + ":" + pkg.name + "/" + iface.name.value;
      Some(if pkg.version.Some? then s + "@" + pkg.version.value else s)
  }

  /** A resource and the canonical name it is listed under. */
  datatype Listing = Listing(id: TypeId, name: string)

  predicate IsResource(table: Table, id: TypeId) {
    id in table && table[id].Resource?
  }

  /** The named types of an interface that are resources. */
  function ResourceTypes(table: Table, types: seq<NamedType>): seq<NamedType> {
    if types == [] then []
    else
      var last := |types| - 1;
      ResourceTypes(table, types[..last]) + if IsResource(table, types[last].id) then [types[last]] else []
  }

  function Listings(prefix: string, types: seq<NamedType>): (r: seq<Listing>)
    ensures |r| == |types|
    ensures forall i :: 0 <= i < |types| ==> r[i] == Listing(types[i].id, prefix + "/" + types[i].name)
  {
    seq(|types|, i requires 0 <= i < |types| => Listing(types[i].id, prefix + "/" + types[i].name))
  }

  function EntryListings(res: Resolve, e: Entry): Option<seq<Listing>>
    requires ClosedEntry(res, e)
  {
    match e.item
    case FunctionItem(_) => Some([])
    case InterfaceItem(id) =>
      var name := QualifiedInterfaceName(res, res.interfaces[id]);
      if name.None? then None
      else Some(Listings(name.value, ResourceTypes(res.types, res.interfaces[id].types)))
    case TypeItem(id) =>
      if e.key.ByName? && IsResource(res.types, id) then Some([Listing(id, "$world/" + e.key.name)]) else Some([])
  }

  function AllListings(res: Resolve, entries: seq<Entry>): (r: seq<Option<seq<Listing>>>)
    requires ClosedEntries(res, entries)
    ensures |r| == |entries| && forall i :: 0 <= i < |entries| ==> r[i] == EntryListings(res, entries[i])
  {
    seq(|entries|, i requires 0 <= i < |entries| => EntryListings(res, entries[i]))
  }

  /** The names after listing these resources: a later listing of a resource replaces an earlier. */
  function Listed(listings: seq<Listing>, out: Names): Names {
    if listings == [] then out
    else
      var last := |listings| - 1;
      Listed(listings[..last], out)[listings[last].id := listings[last].name]
  }

  lemma {:induction false} ListedAppend(a: seq<Listing>, b: seq<Listing>, out: Names)
    ensures Listed(a + b, out) == Listed(b, Listed(a, out))
  {
    if b == [] {
      assert a + b == a;
    } else {
      var last := |b| - 1;
      assert (a + b)[..|a + b| - 1] == a + b[..last];
      ListedAppend(a, b[..last], out);
    }
  }

  /** What the i-th named type adds to the resources. */
  lemma ResourceTypesMore(table: Table, types: seq<NamedType>, i: nat)
    requires i < |types|
    ensures ResourceTypes(table, types[..i + 1])
         == ResourceTypes(table, types[..i]) + if IsResource(table, types[i].id) then [types[i]] else []
  {
    assert types[..i + 1][..i] == types[..i];
  }

  lemma ListedMore(before: seq<NamedType>, t: NamedType, prefix: string, out: Names)
    ensures Listed(Listings(prefix, before + [t]), out)
         == Listed(Listings(prefix, before), out)[t.id := prefix + "/" + t.name]
  {
    assert Listings(prefix, before + [t]) == Listings(prefix, before) + [Listing(t.id, prefix + "/" + t.name)];
    assert Listings(prefix, before + [t])[..|before|] == Listings(prefix, before);
  }

  method ListInterface(table: Table, prefix: string, types: seq<NamedType>, out: Names) returns (r: Names)
    requires forall i :: 0 <= i < |types| ==> types[i].id in table
    ensures r == Listed(Listings(prefix, ResourceTypes(table, types)), out)
  {
    r := out;
    assert ResourceTypes(table, types[..0]) == [] && Listings(prefix, []) == [];
    assert Listed([], out) == out;
    hide ResourceTypes, Listings, Listed;
    for i := 0 to |types|
      invariant r == Listed(Listings(prefix, ResourceTypes(table, types[..i])), out)
    {
      ghost var before := ResourceTypes(table, types[..i]);
      ResourceTypesMore(table, types, i);
      if table[types[i].id].Resource? {
        ListedMore(before, types[i], prefix, out);
        r := r[types[i].id := prefix + "/" + types[i].name];
      } else {
        assert before + [] == before;
      }
    }
    assert types[..|types|] == types;
  }

  /** Enters the resources that the items mention, or fails on an interface without a name. */
  method CollectResourceNames(res: Resolve, entries: seq<Entry>, out: Names) returns (r: Option<Names>)
    requires ClosedEntries(res, entries)
    ensures var all := Gather(AllListings(res, entries));
      r == if all.None? then None else Some(Listed(all.value, out))
  {
    var names := out;
    ghost var parts := AllListings(res, entries);
    for i := 0 to |entries|
      invariant Gather(parts[..i]).Some? && names == Listed(Gather(parts[..i]).value, out)
    {
      GatherMore(parts, i);
      ghost var before := Gather(parts[..i]).value;
      match entries[i].item
      case FunctionItem(_) =>
        assert before + [] == before;
      case InterfaceItem(id) =>
        var name := QualifiedInterfaceName(res, res.interfaces[id]);
        if name.None? {
          GatherNone(parts, i);
          return None;
        }
        names := ListInterface(res.types, name.value, res.interfaces[id].types, names);
        ListedAppend(before, parts[i].value, out);
      case TypeItem(id) =>
        if entries[i].key.ByName? && res.types[id].Resource? {
          names := names[id := "$world/" + entries[i].key.name];
          ListedAppend(before, parts[i].value, out);
        } else {
          assert before + [] == before;
        }
    }
    assert parts[..|entries|] == parts;
    return Some(names);
  }

  // ---- what a world shows ----------------------------------------------------------------------

  datatype FunctionShape = FunctionShape(params: seq<Shape>, results: seq<Shape>, isAsync: bool)

  datatype ItemShape =
    | SFunc(name: string, func: FunctionShape)
    | SInstance(name: string, items: seq<ItemShape>)
    | SResource(name: string)

  ghost predicate FunctionFits(f: FunctionShape) {
    && (forall i :: 0 <= i < |f.params| ==> Fits(f.params[i]))
    && (forall i :: 0 <= i < |f.results| ==> Fits(f.results[i]))
  }

  ghost predicate ItemFits(item: ItemShape)
    decreases item
  {
    match item
    case SFunc(_, f) => FunctionFits(f)
    case SInstance(_, items) => ItemsFit(items)
    case SResource(_) => true
  }

  ghost predicate ItemsFit(items: seq<ItemShape>)
    decreases items
  {
    forall i :: 0 <= i < |items| ==> ItemFits(items[i])
  }

  ghost function ShapeOf(table: Table, names: Names, ty: Type, rank: map<TypeId, nat>): (r: Option<Shape>)
    requires Acyclic(table, rank) && Known(table, ty)
    ensures r.Some? ==> Fits(r.value)
  {
    CanonTypeIsShape(table, names, ty, rank);
    Unfold(table, names, ty, rank)
  }

  ghost function ShapesOf(table: Table, names: Names, types: seq<Type>, rank: map<TypeId, nat>): (r: Option<seq<Shape>>)
    requires Acyclic(table, rank) && forall i :: 0 <= i < |types| ==> Known(table, types[i])
    ensures r.Some? ==> |r.value| == |types| && forall i :: 0 <= i < |types| ==> Fits(r.value[i])
  {
    if types == [] then Some([])
    else
      var last := |types| - 1;
      var before := ShapesOf(table, names, types[..last], rank);
      var one := ShapeOf(table, names, types[last], rank);
      if before.None? || one.None? then None else Some(before.value + [one.value])
  }

  function ParamTypes(params: seq<Param>): (r: seq<Type>)
    ensures |r| == |params| && forall i :: 0 <= i < |params| ==> r[i] == params[i].ty
  {
    seq(|params|, i requires 0 <= i < |params| => params[i].ty)
  }

  predicate IsAsync(kind: FunctionKind) {
    kind.AsyncFreestanding? || kind.AsyncMethod? || kind.AsyncStatic?
  }

  /** A constructor without a declared result returns its resource. */
  ghost function ResultsOf(table: Table, names: Names, f: Function, rank: map<TypeId, nat>): (r: Option<seq<Shape>>)
    requires Acyclic(table, rank) && ClosedFunction(table, f)
    ensures r.Some? ==> forall i :: 0 <= i < |r.value| ==> Fits(r.value[i])
  {
    if f.result.Some? then
      var one := ShapeOf(table, names, f.result.value, rank);
      if one.None? then None else Some([one.value])
    else if f.kind.Constructor? then
      if f.kind.resource in names then Some([SOwn(names[f.kind.resource])]) else None
    else Some([])
  }

  ghost function FunctionView(table: Table, names: Names, f: Function, rank: map<TypeId, nat>): (r: Option<FunctionShape>)
    requires Acyclic(table, rank) && ClosedFunction(table, f)
    ensures r.Some? ==> FunctionFits(r.value)
  {
    var params := ShapesOf(table, names, ParamTypes(f.params), rank);
    var results := ResultsOf(table, names, f, rank);
    if params.None? || results.None? then None
    else Some(FunctionShape(params.value, results.value, IsAsync(f.kind)))
  }

  ghost function FunctionItemView(table: Table, names: Names, name: string, f: Function, rank: map<TypeId, nat>)
    : (r: Option<seq<ItemShape>>)
    requires Acyclic(table, rank) && ClosedFunction(table, f)
    ensures r.Some? ==> ItemsFit(r.value)
  {
    var view := FunctionView(table, names, f, rank);
    if view.None? then None else Some([SFunc(name, view.value)])
  }

  ghost function FunctionViews(table: Table, names: Names, fs: seq<Function>, rank: map<TypeId, nat>)
    : (r: seq<Option<seq<ItemShape>>>)
    requires Acyclic(table, rank) && forall i :: 0 <= i < |fs| ==> ClosedFunction(table, fs[i])
    ensures |r| == |fs|
    ensures forall i :: 0 <= i < |fs| ==> r[i] == FunctionItemView(table, names, fs[i].name, fs[i], rank)
  {
    seq(|fs|, i requires 0 <= i < |fs| => FunctionItemView(table, names, fs[i].name, fs[i], rank))
  }

  ghost predicate PartsFit(parts: seq<Option<seq<ItemShape>>>) {
    forall i :: 0 <= i < |parts| ==> parts[i].Some? ==> ItemsFit(parts[i].value)
  }

  lemma {:induction false} GatherFits(parts: seq<Option<seq<ItemShape>>>)
    requires PartsFit(parts)
    ensures Gather(parts).Some? ==> ItemsFit(Gather(parts).value)
  {
    if parts != [] { GatherFits(parts[..|parts| - 1]); }
  }

  function ResourceItems(types: seq<NamedType>): (r: seq<ItemShape>)
    ensures |r| == |types| && forall i :: 0 <= i < |types| ==> r[i] == SResource(types[i].name)
  {
    seq(|types|, i requires 0 <= i < |types| => SResource(types[i].name))
  }

  /** The resources and functions of an interface, in declaration order. */
  ghost function InterfaceView(res: Resolve, names: Names, iface: Interface, rank: map<TypeId, nat>)
    : (r: Option<seq<ItemShape>>)
    requires Acyclic(res.types, rank) && ClosedInterface(res, iface)
    ensures r.Some? ==> ItemsFit(r.value)
  {
    var parts := FunctionViews(res.types, names, iface.functions, rank);
    GatherFits(parts);
    var fs := Gather(parts);
    if fs.None? then None else Some(ResourceItems(ResourceTypes(res.types, iface.types)) + fs.value)
  }

  ghost function EntryView(res: Resolve, names: Names, e: Entry, rank: map<TypeId, nat>): (r: Option<seq<ItemShape>>)
    requires Acyclic(res.types, rank) && ClosedEntry(res, e)
    ensures r.Some? ==> ItemsFit(r.value)
  {
    match e.item
    case FunctionItem(f) =>
      if e.key.ByInterface? then None else FunctionItemView(res.types, names, e.key.name, f, rank)
    case InterfaceItem(id) =>
      var name := QualifiedInterfaceName(res, res.interfaces[id]);
      var items := InterfaceView(res, names, res.interfaces[id], rank);
      if name.None? || items.None? then None else Some([SInstance(name.value, items.value)])
    case TypeItem(id) =>
      if !IsResource(res.types, id) then Some([])
      else if e.key.ByInterface? then None
      else Some([SResource(e.key.name)])
  }

  ghost function EntryViews(res: Resolve, names: Names, entries: seq<Entry>, rank: map<TypeId, nat>)
    : (r: seq<Option<seq<ItemShape>>>)
    requires Acyclic(res.types, rank) && ClosedEntries(res, entries)
    ensures |r| == |entries| && PartsFit(r)
    ensures forall i :: 0 <= i < |entries| ==> r[i] == EntryView(res, names, entries[i], rank)
  {
    seq(|entries|, i requires 0 <= i < |entries| => EntryView(res, names, entries[i], rank))
  }

  ghost function ItemsView(res: Resolve, names: Names, entries: seq<Entry>, rank: map<TypeId, nat>)
    : (r: Option<seq<ItemShape>>)
    requires Acyclic(res.types, rank) && ClosedEntries(res, entries)
    ensures r.Some? ==> ItemsFit(r.value)
  {
    GatherFits(EntryViews(res, names, entries, rank));
    Gather(EntryViews(res, names, entries, rank))
  }

  // ---- the document ----------------------------------------------------------------------------

  /** The name by which an item is sorted. */
  function NameOf(j: Json): string {
    var name := Get(j, "name");
    if name.Some? && name.value.JStr? then name.value.s else ""
  }

  function FunctionDoc(params: seq<Json>, results: seq<Json>, isAsync: bool): Json {
    JObj([Member("params", JArr(params)), Member("results", JArr(results)), Member("async", JBool(isAsync))])
  }

  function ItemDoc(kind: string, name: string, rest: seq<Member>): Json {
    Tagged(kind, [Member("name", JStr(name))] + rest)
  }

  function SortByName(items: seq<Json>): seq<Json> {
    Sort(items, NameOf)
  }

  ghost function FunctionJson(f: FunctionShape): Json
    requires FunctionFits(f)
  {
    FunctionDoc(EncodeAll(f.params), EncodeAll(f.results), f.isAsync)
  }

  ghost function ItemJson(item: ItemShape): Json
    requires ItemFits(item)
    decreases item
  {
    match item
    case SFunc(name, f) => ItemDoc("func", name, [Member("func", FunctionJson(f))])
    case SInstance(name, items) =>
      ItemDoc("instance", name, [Member("items", JArr(SortByName(ItemsJson(items))))])
    case SResource(name) => ItemDoc("resource", name, [])
  }

  ghost function ItemsJson(items: seq<ItemShape>): (r: seq<Json>)
    requires ItemsFit(items)
    ensures |r| == |items| && forall i :: 0 <= i < |items| ==> r[i] == ItemJson(items[i])
    decreases items
  {
    if items == [] then [] else [ItemJson(items[0])] + ItemsJson(items[1..])
  }

  const CEWD_VERSION := 1

  function WorldDoc(imports: seq<Json>, exports: seq<Json>): Json {
    JObj([Member("cewd", JNum(CEWD_VERSION)),
          Member("imports", JArr(SortByName(imports))),
          Member("exports", JArr(SortByName(exports)))])
  }

  datatype WorldShape = WorldShape(imports: seq<ItemShape>, exports: seq<ItemShape>)

  ghost function WorldNames(res: Resolve, w: World): Option<Names>
    requires ClosedEntries(res, w.imports) && ClosedEntries(res, w.exports)
  {
    var imports := Gather(AllListings(res, w.imports));
    var exports := Gather(AllListings(res, w.exports));
    if imports.None? || exports.None? then None else Some(Listed(exports.value, Listed(imports.value, map[])))
  }

  ghost function WorldView(res: Resolve, w: World, rank: map<TypeId, nat>): (r: Option<WorldShape>)
    requires Acyclic(res.types, rank) && ClosedEntries(res, w.imports) && ClosedEntries(res, w.exports)
    ensures r.Some? ==> ItemsFit(r.value.imports) && ItemsFit(r.value.exports)
  {
    var names := WorldNames(res, w);
    if names.None? then None
    else
      var imports := ItemsView(res, names.value, w.imports, rank);
      var exports := ItemsView(res, names.value, w.exports, rank);
      if imports.None? || exports.None? then None else Some(WorldShape(imports.value, exports.value))
  }

  ghost function WorldJson(v: WorldShape): Json
    requires ItemsFit(v.imports) && ItemsFit(v.exports)
  {
    WorldDoc(ItemsJson(v.imports), ItemsJson(v.exports))
  }

  // ---- the operations --------------------------------------------------------------------------

  lemma {:induction false} ShapesOfNone(table: Table, names: Names, types: seq<Type>, rank: map<TypeId, nat>, i: nat)
    requires Acyclic(table, rank) && (forall j :: 0 <= j < |types| ==> Known(table, types[j])) && i < |types|
    requires ShapeOf(table, names, types[i], rank) == None
    ensures ShapesOf(table, names, types, rank) == None
  {
    hide Acyclic, ShapeOf;
    if i < |types| - 1 { ShapesOfNone(table, names, types[..|types| - 1], rank, i); }
  }

  lemma EncodeAllMore(before: seq<Shape>, s: Shape)
    requires Fits(s) && forall i :: 0 <= i < |before| ==> Fits(before[i])
    ensures EncodeAll(before + [s]) == EncodeAll(before) + [Encode(s)]
  {
    hide Encode, Fits;
    assert forall i :: 0 <= i < |before| ==> (before + [s])[i] == before[i];
  }

  method CanonParams(table: Table, params: seq<Param>, names: Names, ghost rank: map<TypeId, nat>)
    returns (r: Option<seq<Json>>)
    requires Acyclic(table, rank) && forall i :: 0 <= i < |params| ==> Known(table, params[i].ty)
    ensures var view := ShapesOf(table, names, ParamTypes(params), rank);
      r == if view.None? then None else Some(EncodeAll(view.value))
  {
    hide Acyclic, Unfold, CanonType, Encode, Fits;
    ghost var types := ParamTypes(params);
    var out: seq<Json> := [];
    for i := 0 to |params|
      invariant ShapesOf(table, names, types[..i], rank).Some?
      invariant out == EncodeAll(ShapesOf(table, names, types[..i], rank).value)
    {
      assert types[..i + 1][..i] == types[..i];
      CanonTypeIsShape(table, names, params[i].ty, rank);
      var ty := CanonType(table, names, params[i].ty, rank);
      if ty.None? {
        ShapesOfNone(table, names, types, rank, i);
        return None;
      }
      EncodeAllMore(ShapesOf(table, names, types[..i], rank).value, ShapeOf(table, names, types[i], rank).value);
      out := out + [ty.value];
    }
    assert types[..|params|] == types;
    return Some(out);
  }

  lemma EncodeOne(s: Shape)
    requires Fits(s)
    ensures EncodeAll([s]) == [Encode(s)]
  {}

  lemma OwnJson(name: string)
    ensures Fits(SOwn(name)) && Encode(SOwn(name)) == Tagged("own", [Member("resource", JStr(name))])
  {}

  method CanonResults(table: Table, f: Function, names: Names, ghost rank: map<TypeId, nat>)
    returns (r: Option<seq<Json>>)
    requires Acyclic(table, rank) && ClosedFunction(table, f)
    ensures var view := ResultsOf(table, names, f, rank);
      r == if view.None? then None else Some(EncodeAll(view.value))
  {
    hide Acyclic, Unfold, CanonType, Encode, Fits, Tagged;
    if f.result.Some? {
      CanonTypeIsShape(table, names, f.result.value, rank);
      var ty := CanonType(table, names, f.result.value, rank);
      if ty.None? { return None; }
      EncodeOne(ShapeOf(table, names, f.result.value, rank).value);
      return Some([ty.value]);
    } else if f.kind.Constructor? {
      if f.kind.resource !in names { return None; }
      OwnJson(names[f.kind.resource]);
      EncodeOne(SOwn(names[f.kind.resource]));
      return Some([Tagged("own", [Member("resource", JStr(names[f.kind.resource]))])]);
    } else {
      return Some([]);
    }
  }

  method CanonFunc(table: Table, f: Function, names: Names, ghost rank: map<TypeId, nat>) returns (r: Option<Json>)
    requires Acyclic(table, rank) && ClosedFunction(table, f)
    ensures var view := FunctionView(table, names, f, rank);
      r == if view.None? then None else Some(FunctionJson(view.value))
  {
    hide Acyclic, ShapesOf, ResultsOf;
    var params := CanonParams(table, f.params, names, rank);
    if params.None? { return None; }
    var results := CanonResults(table, f, names, rank);
    if results.None? { return None; }
    return Some(FunctionDoc(params.value, results.value, IsAsync(f.kind)));
  }

  lemma ItemsJsonMore(before: seq<ItemShape>, more: seq<ItemShape>)
    requires ItemsFit(before) && ItemsFit(more)
    ensures ItemsFit(before + more) && ItemsJson(before + more) == ItemsJson(before) + ItemsJson(more)
  {
    hide ItemJson, ItemFits;
    assert forall i :: 0 <= i < |before + more| ==>
      (before + more)[i] == if i < |before| then before[i] else more[i - |before|];
  }

  lemma ItemsJsonOne(item: ItemShape)
    requires ItemFits(item)
    ensures ItemsFit([item]) && ItemsJson([item]) == [ItemJson(item)]
  {}

  method ResourceDocs(table: Table, types: seq<NamedType>) returns (out: seq<Json>)
    requires forall i :: 0 <= i < |types| ==> types[i].id in table
    ensures var items := ResourceItems(ResourceTypes(table, types)); ItemsFit(items) && out == ItemsJson(items)
  {
    out := [];
    assert ResourceTypes(table, types[..0]) == [] && ResourceItems([]) == [] && ItemsJson([]) == [];
    hide ResourceTypes, ItemsJson, ItemDoc;
    for i := 0 to |types|
      invariant var items := ResourceItems(ResourceTypes(table, types[..i])); ItemsFit(items) && out == ItemsJson(items)
    {
      ghost var before := ResourceTypes(table, types[..i]);
      ResourceTypesMore(table, types, i);
      if table[types[i].id].Resource? {
        out := out + [ItemDoc("resource", types[i].name, [])];
        assert ResourceItems(before + [types[i]]) == ResourceItems(before) + [SResource(types[i].name)];
        ItemsJsonOne(SResource(types[i].name));
        ItemsJsonMore(ResourceItems(before), [SResource(types[i].name)]);
      } else {
        assert before + [] == before;
      }
    }
    assert types[..|types|] == types;
  }

  method CanonInterface(res: Resolve, iface: Interface, names: Names, ghost rank: map<TypeId, nat>)
    returns (r: Option<seq<Json>>)
    requires Acyclic(res.types, rank) && ClosedInterface(res, iface)
    ensures var view := InterfaceView(res, names, iface, rank);
      r == if view.None? then None else Some(ItemsJson(view.value))
  {
    hide Acyclic, FunctionView, ItemsJson;
    ghost var resources := ResourceItems(ResourceTypes(res.types, iface.types));
    var out := ResourceDocs(res.types, iface.types);
    ghost var parts := FunctionViews(res.types, names, iface.functions, rank);
    for i := 0 to |iface.functions|
      invariant Gather(parts[..i]).Some?
      invariant var items := resources + Gather(parts[..i]).value; ItemsFit(items) && out == ItemsJson(items)
    {
      GatherMore(parts, i);
      var f := iface.functions[i];
      var doc := CanonFunc(res.types, f, names, rank);
      if doc.None? {
        GatherNone(parts, i);
        return None;
      }
      out := out + [ItemDoc("func", f.name, [Member("func", doc.value)])];
      ghost var before := Gather(parts[..i]).value;
      ItemsJsonOne(parts[i].value[0]);
      ItemsJsonMore(resources + before, parts[i].value);
      assert (resources + before) + parts[i].value == resources + (before + parts[i].value);
    }
    assert parts[..|parts|] == parts;
    return Some(out);
  }

  method CanonItem(res: Resolve, e: Entry, names: Names, ghost rank: map<TypeId, nat>) returns (r: Option<seq<Json>>)
    requires Acyclic(res.types, rank) && ClosedEntry(res, e)
    ensures var view := EntryView(res, names, e, rank);
      r == if view.None? then None else Some(ItemsJson(view.value))
  {
    hide Acyclic, FunctionView, InterfaceView, ItemsJson;
    ghost var view := EntryView(res, names, e, rank);
    match e.item
    case FunctionItem(f) =>
      if e.key.ByInterface? { return None; }
      var doc := CanonFunc(res.types, f, names, rank);
      if doc.None? { return None; }
      ItemsJsonOne(view.value[0]);
      return Some([ItemDoc("func", e.key.name, [Member("func", doc.value)])]);
    case InterfaceItem(id) =>
      var name := QualifiedInterfaceName(res, res.interfaces[id]);
      if name.None? { return None; }
      var items := CanonInterface(res, res.interfaces[id], names, rank);
      if items.None? { return None; }
      ItemsJsonOne(view.value[0]);
      return Some([ItemDoc("instance", name.value, [Member("items", JArr(SortByName(items.value)))])]);
    case TypeItem(id) =>
      if !res.types[id].Resource? {
        NoItems();
        return Some([]);
      }
      if e.key.ByInterface? { return None; }
      ItemsJsonOne(view.value[0]);
      return Some([ItemDoc("resource", e.key.name, [])]);
  }

  lemma NoItems()
    ensures ItemsJson([]) == []
  {}

  method CanonItems(res: Resolve, entries: seq<Entry>, names: Names, ghost rank: map<TypeId, nat>)
    returns (r: Option<seq<Json>>)
    requires Acyclic(res.types, rank) && ClosedEntries(res, entries)
    ensures var view := ItemsView(res, names, entries, rank);
      r == if view.None? then None else Some(ItemsJson(view.value))
  {
    hide Acyclic, EntryView, ItemsJson;
    var out: seq<Json> := [];
    ghost var parts := EntryViews(res, names, entries, rank);
    NoItems();
    for i := 0 to |entries|
      invariant Gather(parts[..i]).Some?
      invariant ItemsFit(Gather(parts[..i]).value) && out == ItemsJson(Gather(parts[..i]).value)
    {
      GatherMore(parts, i);
      var docs := CanonItem(res, entries[i], names, rank);
      if docs.None? {
        GatherNone(parts, i);
        return None;
      }
      out := out + docs.value;
      ItemsJsonMore(Gather(parts[..i]).value, parts[i].value);
    }
    assert parts[..|entries|] == parts;
    return Some(out);
  }

  /** The canonical document of a world: what the digest hashes.  None stands for any reported error. */
  method Compute(res: Resolve, world: WorldId, ghost rank: map<TypeId, nat>) returns (r: Option<Json>)
    requires Resolved(res, rank)
    ensures r == CanonicalDoc(res, world, rank)
  {
    hide Acyclic, ItemsView;
    if world !in res.worlds { return None; }
    var w := res.worlds[world];
    var importNames := CollectResourceNames(res, w.imports, map[]);
    if importNames.None? { return None; }
    var names := CollectResourceNames(res, w.exports, importNames.value);
    if names.None? { return None; }
    var imports := CanonItems(res, w.imports, names.value, rank);
    if imports.None? { return None; }
    var exports := CanonItems(res, w.exports, names.value, rank);
    if exports.None? { return None; }
    return Some(SortKeys(WorldDoc(imports.value, exports.value)));
  }

  /** The shape of the world, if its canonical document can be written. */
  ghost function Shown(res: Resolve, world: WorldId, rank: map<TypeId, nat>): (r: Option<WorldShape>)
    requires Resolved(res, rank)
    ensures r.Some? ==> ItemsFit(r.value.imports) && ItemsFit(r.value.exports)
  {
    if world in res.worlds then WorldView(res, res.worlds[world], rank) else None
  }

  ghost function CanonicalDoc(res: Resolve, world: WorldId, rank: map<TypeId, nat>): Option<Json>
    requires Resolved(res, rank)
  {
    var view := Shown(res, world, rank);
    if view.None? then None else Some(SortKeys(WorldJson(view.value)))
  }
}
