/** What equal canonical documents say of the declarations themselves: the packages, interfaces,
  * functions and resources that two worlds name, field by field.
  */
module DigestFields {
  import opened Prelude
  import opened StableSort
  import opened CanonicalJson
  import opened TypeTable
  import opened TypeShapes
  import opened TypeMeaning
  import opened WorldDigest
  import opened DigestMeaning

  // ---- names -----------------------------------------------------------------------------------

  /** A WIT identifier holds none of the marks that separate the parts of a qualified name. */
  predicate IsIdentifier(s: string) {
    ':' !in s && '/' !in s && '@' !in s
  }

  predicate CleanInterface(res: Resolve, iface: Interface)
    requires ClosedInterface(res, iface)
  {
    && (iface.name.Some? ==> IsIdentifier(iface.name.value))
    && (iface.package.Some? ==>
          var pkg := res.packages[iface.package.value]; IsIdentifier(pkg.namespace) && IsIdentifier(pkg.name))
    && forall i :: 0 <= i < |iface.types| ==> IsIdentifier(iface.types[i].name)
  }

  /** Both belong to a package and have a name, and namespace, package, interface name and version
    * are the same. */
  predicate SameName(r1: Resolve, a: Interface, r2: Resolve, b: Interface)
    requires ClosedInterface(r1, a) && ClosedInterface(r2, b)
  {
    && a.name.Some? && a.package.Some? && b.name.Some? && b.package.Some? && a.name == b.name
    && var p, q := r1.packages[a.package.value], r2.packages[b.package.value];
       p.namespace == q.namespace && p.name == q.name && p.version == q.version
  }

  lemma CutAt(a: string, x: string, b: string, y: string, sep: char)
    requires sep !in a && sep !in b && a + [sep] + x == b + [sep] + y
    ensures a == b && x == y
  {
    var s := a + [sep] + x;
    assert s[|a|] == sep && s[|b|] == sep;
    assert s[..|a|] == a && s[..|b|] == b && s[|a| + 1..] == x && s[|b| + 1..] == y;
  }

  /** The rest of a name: with a version behind '@', or without. */
  function Versioned(name: string, version: Option<string>): string {
    if version.Some? then name + ['@'] + version.value else name
  }

  lemma VersionedTells(a: string, v: Option<string>, b: string, w: Option<string>)
    requires '@' !in a && '@' !in b && Versioned(a, v) == Versioned(b, w)
    ensures a == b && v == w
  {
    if v.Some? && w.Some? {
      CutAt(a, v.value, b, w.value, '@');
    }
  }

  lemma QualifiedIs(res: Resolve, iface: Interface)
    requires ClosedInterface(res, iface) && iface.name.Some? && iface.package.Some?
    ensures
      var pkg := res.packages[iface.package.value];
      QualifiedInterfaceName(res, iface) ==
      Some(pkg.namespace + [':'] + (pkg.name + ['/'] + Versioned(iface.name.value, pkg.version)))
  {
    var pkg := res.packages[iface.package.value];
    var n := iface.name.value;
    if pkg.version.Some? {
      var v := pkg.version.value;
      assert pkg.namespace + ":" + pkg.name + "/" + n + "@" + v
        == pkg.namespace + [':'] + (pkg.name + ['/'] + (n + ['@'] + v));
    } else {
      assert pkg.namespace + ":" + pkg.name + "/" + n == pkg.namespace + [':'] + (pkg.name + ['/'] + n);
    }
  }

  /** Interfaces have one qualified name exactly if their namespaces, packages, names and versions
    * are the same. */
  lemma QualifiedNameTells(r1: Resolve, a: Interface, r2: Resolve, b: Interface)
    requires ClosedInterface(r1, a) && ClosedInterface(r2, b) && CleanInterface(r1, a) && CleanInterface(r2, b)
    ensures QualifiedInterfaceName(r1, a).Some? <==> a.name.Some? && a.package.Some?
    ensures QualifiedInterfaceName(r1, a).Some? && QualifiedInterfaceName(r2, b).Some? ==>
      (QualifiedInterfaceName(r1, a) == QualifiedInterfaceName(r2, b) <==> SameName(r1, a, r2, b))
  {
    if QualifiedInterfaceName(r1, a).Some? && QualifiedInterfaceName(r2, b).Some? {
      QualifiedIs(r1, a);
      QualifiedIs(r2, b);
      hide QualifiedInterfaceName;
      if QualifiedInterfaceName(r1, a) == QualifiedInterfaceName(r2, b) {
        var p, q := r1.packages[a.package.value], r2.packages[b.package.value];
        var m, n := Versioned(a.name.value, p.version), Versioned(b.name.value, q.version);
        CutAt(p.namespace, p.name + ['/'] + m, q.namespace, q.name + ['/'] + n, ':');
        CutAt(p.name, m, q.name, n, '/');
        VersionedTells(a.name.value, p.version, b.name.value, q.version);
      }
    }
  }

  // ---- functions -------------------------------------------------------------------------------

  /** The function is asynchronous by its kind. */
  ghost predicate Waits(kind: FunctionKind) {
    kind == AsyncFreestanding || exists r :: kind == AsyncMethod(r) || kind == AsyncStatic(r)
  }

  /** fs is the structure of f: its parameter types in order, its result or, for a constructor without
    * one, the resource, and whether it is asynchronous. */
  ghost predicate FunctionDescribed(table: Table, names: Names, rank: map<TypeId, nat>, f: Function, fs: FunctionShape)
    requires Acyclic(table, rank) && ClosedFunction(table, f)
  {
    && |f.params| == |fs.params|
    && (forall i :: 0 <= i < |f.params| ==> Describes(table, names, rank, f.params[i].ty, fs.params[i]))
    && (if f.result.Some? then |fs.results| == 1 && Describes(table, names, rank, f.result.value, fs.results[0])
        else if f.kind.Constructor? then f.kind.resource in names && fs.results == [SOwn(names[f.kind.resource])]
        else fs.results == [])
    && (fs.isAsync <==> Waits(f.kind))
  }

  lemma ShapeOfIff(table: Table, names: Names, rank: map<TypeId, nat>, ty: Type, s: Shape)
    requires Acyclic(table, rank) && Known(table, ty)
    ensures ShapeOf(table, names, ty, rank) == Some(s) <==> Describes(table, names, rank, ty, s)
  {
    UnfoldsIff(table, names, rank, ty, s);
  }

  lemma {:induction false} ShapesOfIff(table: Table, names: Names, rank: map<TypeId, nat>, types: seq<Type>, ss: seq<Shape>)
    requires Acyclic(table, rank) && forall i :: 0 <= i < |types| ==> Known(table, types[i])
    ensures ShapesOf(table, names, types, rank) == Some(ss) <==>
      |types| == |ss| && forall i :: 0 <= i < |types| ==> Describes(table, names, rank, types[i], ss[i])
  {
    hide Acyclic, ShapeOf, Describes, Known;
    if types != [] && ss != [] {
      var n := |types| - 1;
      ShapeOfIff(table, names, rank, types[n], ss[|ss| - 1]);
      ShapesOfIff(table, names, rank, types[..n], ss[..|ss| - 1]);
      assert ss == ss[..|ss| - 1] + [ss[|ss| - 1]];
    }
  }

  lemma AsyncIff(kind: FunctionKind)
    ensures IsAsync(kind) <==> Waits(kind)
  {
    match kind
    case AsyncMethod(r) => assert kind == AsyncMethod(r);
    case AsyncStatic(r) => assert kind == AsyncStatic(r);
    case _ =>
  }

  lemma ResultsOfIff(table: Table, names: Names, rank: map<TypeId, nat>, f: Function, ss: seq<Shape>)
    requires Acyclic(table, rank) && ClosedFunction(table, f)
    ensures ResultsOf(table, names, f, rank) == Some(ss) <==>
      if f.result.Some? then |ss| == 1 && Describes(table, names, rank, f.result.value, ss[0])
      else if f.kind.Constructor? then f.kind.resource in names && ss == [SOwn(names[f.kind.resource])]
      else ss == []
  {
    hide Acyclic, ShapeOf, Describes;
    if f.result.Some? && |ss| == 1 {
      ShapeOfIff(table, names, rank, f.result.value, ss[0]);
      assert ss == [ss[0]];
    }
  }

  /** The view of a function is its structure. */
  lemma FunctionViewIff(table: Table, names: Names, rank: map<TypeId, nat>, f: Function, fs: FunctionShape)
    requires Acyclic(table, rank) && ClosedFunction(table, f)
    ensures FunctionView(table, names, f, rank) == Some(fs) <==> FunctionDescribed(table, names, rank, f, fs)
  {
    hide Acyclic, ShapesOf, ResultsOf, Describes, Waits, IsAsync;
    ShapesOfIff(table, names, rank, ParamTypes(f.params), fs.params);
    ResultsOfIff(table, names, rank, f, fs.results);
    AsyncIff(f.kind);
    assert forall i :: 0 <= i < |f.params| ==> ParamTypes(f.params)[i] == f.params[i].ty;
  }

  // ---- interfaces and worlds -------------------------------------------------------------------

  lemma {:induction false} GatherMember<T>(parts: seq<Option<seq<T>>>, x: T)
    requires Gather(parts).Some?
    ensures forall i :: 0 <= i < |parts| ==> parts[i].Some?
    ensures x in Gather(parts).value <==> exists i :: 0 <= i < |parts| && x in parts[i].value
  {
    if parts != [] {
      var last := |parts| - 1;
      GatherMember(parts[..last], x);
      assert forall i :: 0 <= i < last ==> parts[..last][i] == parts[i];
      if x in Gather(parts[..last]).value {
        var i :| 0 <= i < last && x in parts[..last][i].value;
        assert x in parts[i].value;
      }
    }
  }

  lemma {:induction false} ResourceTypesMember(table: Table, types: seq<NamedType>, t: NamedType)
    ensures t in ResourceTypes(table, types) <==> t in types && IsResource(table, t.id)
  {
    if types != [] {
      ResourceTypesMember(table, types[..|types| - 1], t);
      assert types == types[..|types| - 1] + [types[|types| - 1]];
    }
  }

  /** The interface declares a resource of this name. */
  ghost predicate DeclaresResource(table: Table, iface: Interface, name: string) {
    exists i :: 0 <= i < |iface.types| && iface.types[i].name == name
      && iface.types[i].id in table && table[iface.types[i].id] == Resource
  }

  /** The interface declares a function of this name and structure. */
  ghost predicate DeclaresFunction(
    table: Table, names: Names, rank: map<TypeId, nat>, iface: Interface, name: string, fs: FunctionShape)
    requires Acyclic(table, rank) && forall i :: 0 <= i < |iface.functions| ==> ClosedFunction(table, iface.functions[i])
  {
    exists i :: 0 <= i < |iface.functions| && iface.functions[i].name == name
      && FunctionDescribed(table, names, rank, iface.functions[i], fs)
  }

  lemma ResourceItemsTell(table: Table, iface: Interface, x: ItemShape)
    ensures x in ResourceItems(ResourceTypes(table, iface.types)) <==>
      x.SResource? && DeclaresResource(table, iface, x.name)
  {
    var rs := ResourceTypes(table, iface.types);
    if x in ResourceItems(rs) {
      var k :| 0 <= k < |rs| && ResourceItems(rs)[k] == x;
      ResourceTypesMember(table, iface.types, rs[k]);
    }
    if x.SResource? && DeclaresResource(table, iface, x.name) {
      var i :| 0 <= i < |iface.types| && iface.types[i].name == x.name
        && iface.types[i].id in table && table[iface.types[i].id] == Resource;
      ResourceTypesMember(table, iface.types, iface.types[i]);
      var k :| 0 <= k < |rs| && rs[k] == iface.types[i];
      assert ResourceItems(rs)[k] == x;
    }
  }

  lemma FunctionItemsTell(table: Table, names: Names, rank: map<TypeId, nat>, iface: Interface, x: ItemShape)
    requires Acyclic(table, rank) && forall i :: 0 <= i < |iface.functions| ==> ClosedFunction(table, iface.functions[i])
    requires Gather(FunctionViews(table, names, iface.functions, rank)).Some?
    ensures x in Gather(FunctionViews(table, names, iface.functions, rank)).value <==>
      x.SFunc? && DeclaresFunction(table, names, rank, iface, x.name, x.func)
  {
    hide Acyclic, FunctionView, ClosedFunction, FunctionDescribed;
    var parts := FunctionViews(table, names, iface.functions, rank);
    GatherMember(parts, x);
    forall i | 0 <= i < |parts|
      ensures x in parts[i].value <==>
        x.SFunc? && iface.functions[i].name == x.name && FunctionDescribed(table, names, rank, iface.functions[i], x.func)
    {
      if x.SFunc? { FunctionViewIff(table, names, rank, iface.functions[i], x.func); }
    }
  }

  /** The view of an interface lists its resources and its functions. */
  lemma InterfaceTells(res: Resolve, names: Names, iface: Interface, rank: map<TypeId, nat>, x: ItemShape)
    requires Acyclic(res.types, rank) && ClosedInterface(res, iface) && InterfaceView(res, names, iface, rank).Some?
    ensures x in InterfaceView(res, names, iface, rank).value <==>
      match x
      case SResource(name) => DeclaresResource(res.types, iface, name)
      case SFunc(name, fs) => DeclaresFunction(res.types, names, rank, iface, name, fs)
      case SInstance(_, _) => false
  {
    hide Acyclic, DeclaresResource, DeclaresFunction, FunctionViews, Gather, ResourceTypes, ResourceItems;
    ResourceItemsTell(res.types, iface, x);
    FunctionItemsTell(res.types, names, rank, iface, x);
  }

  // ---- declarations alike ----------------------------------------------------------------------

  /** One structure describes both functions. */
  ghost predicate FunctionsAlike(
    t1: Table, n1: Names, k1: map<TypeId, nat>, f: Function, t2: Table, n2: Names, k2: map<TypeId, nat>, g: Function)
    requires Acyclic(t1, k1) && ClosedFunction(t1, f) && Acyclic(t2, k2) && ClosedFunction(t2, g)
  {
    exists fs :: FunctionDescribed(t1, n1, k1, f, fs) && FunctionDescribed(t2, n2, k2, g, fs)
  }

  /** The interface declares a function of the same name and structure. */
  ghost predicate HasLike(
    t1: Table, n1: Names, k1: map<TypeId, nat>, f: Function, r2: Resolve, n2: Names, k2: map<TypeId, nat>, b: Interface)
    requires Acyclic(t1, k1) && ClosedFunction(t1, f) && Acyclic(r2.types, k2) && ClosedInterface(r2, b)
  {
    exists j ::
      0 <= j < |b.functions| && b.functions[j].name == f.name && FunctionsAlike(t1, n1, k1, f, r2.types, n2, k2, b.functions[j])
  }

  /** Every resource and every function of the first interface has its like in the second. */
  ghost predicate Within(
    r1: Resolve, n1: Names, k1: map<TypeId, nat>, a: Interface, r2: Resolve, n2: Names, k2: map<TypeId, nat>, b: Interface)
    requires Acyclic(r1.types, k1) && ClosedInterface(r1, a) && Acyclic(r2.types, k2) && ClosedInterface(r2, b)
  {
    && (forall i :: 0 <= i < |a.types| && IsResource(r1.types, a.types[i].id) ==>
          DeclaresResource(r2.types, b, a.types[i].name))
    && (forall i :: 0 <= i < |a.functions| ==> HasLike(r1.types, n1, k1, a.functions[i], r2, n2, k2, b))
  }

  /** Two declarations of the same kind and name: functions of one structure, interfaces of the same
    * namespace, package, name and version with the same resources and functions, or resources. */
  ghost predicate EntriesAlike(
    r1: Resolve, n1: Names, k1: map<TypeId, nat>, a: Entry, r2: Resolve, n2: Names, k2: map<TypeId, nat>, b: Entry)
    requires Acyclic(r1.types, k1) && ClosedEntry(r1, a) && Acyclic(r2.types, k2) && ClosedEntry(r2, b)
  {
    match (a.item, b.item)
    case (FunctionItem(f), FunctionItem(g)) => a.key == b.key && FunctionsAlike(r1.types, n1, k1, f, r2.types, n2, k2, g)
    case (InterfaceItem(i), InterfaceItem(j)) =>
      && SameName(r1, r1.interfaces[i], r2, r2.interfaces[j])
      && Within(r1, n1, k1, r1.interfaces[i], r2, n2, k2, r2.interfaces[j])
      && Within(r2, n2, k2, r2.interfaces[j], r1, n1, k1, r1.interfaces[i])
    case (TypeItem(i), TypeItem(j)) => IsResource(r1.types, i) && IsResource(r2.types, j) && a.key == b.key
    case _ => false
  }

  /** What is in one of two lists with the same normal form is, in normal form, in the other. */
  lemma NormalMember(a: seq<ItemShape>, b: seq<ItemShape>, x: ItemShape) returns (y: ItemShape)
    requires Sort(NormalItems(a), ShapeName) == Sort(NormalItems(b), ShapeName) && x in a
    ensures y in b && NormalItem(y) == NormalItem(x)
  {
    hide NormalItem, Sort;
    var n := NormalItem(x);
    SortedMembers(NormalItems(a), ShapeName, n);
    SortedMembers(NormalItems(b), ShapeName, n);
    var i :| 0 <= i < |a| && a[i] == x;
    assert NormalItems(a)[i] == n;
    assert n in NormalItems(b);
    var j :| 0 <= j < |b| && NormalItems(b)[j] == n;
    y := b[j];
  }

  lemma ShownFunction(res: Resolve, names: Names, iface: Interface, rank: map<TypeId, nat>, i: nat) returns (fs: FunctionShape)
    requires Acyclic(res.types, rank) && ClosedInterface(res, iface) && InterfaceView(res, names, iface, rank).Some?
    requires i < |iface.functions|
    ensures FunctionDescribed(res.types, names, rank, iface.functions[i], fs)
    ensures SFunc(iface.functions[i].name, fs) in InterfaceView(res, names, iface, rank).value
  {
    hide Acyclic, FunctionView, FunctionDescribed, ResourceTypes;
    var parts := FunctionViews(res.types, names, iface.functions, rank);
    GatherMember(parts, SResource(""));
    assert parts[i].Some?;
    fs := FunctionView(res.types, names, iface.functions[i], rank).value;
    FunctionViewIff(res.types, names, rank, iface.functions[i], fs);
    GatherMember(parts, SFunc(iface.functions[i].name, fs));
  }

  lemma DeclaredHere(table: Table, iface: Interface, i: nat)
    requires i < |iface.types| && IsResource(table, iface.types[i].id)
    ensures DeclaresResource(table, iface, iface.types[i].name)
  {}

  lemma WithinShown(
    r1: Resolve, n1: Names, k1: map<TypeId, nat>, a: Interface, r2: Resolve, n2: Names, k2: map<TypeId, nat>, b: Interface)
    requires Acyclic(r1.types, k1) && ClosedInterface(r1, a) && Acyclic(r2.types, k2) && ClosedInterface(r2, b)
    requires InterfaceView(r1, n1, a, k1).Some? && InterfaceView(r2, n2, b, k2).Some?
    requires Sort(NormalItems(InterfaceView(r1, n1, a, k1).value), ShapeName)
          == Sort(NormalItems(InterfaceView(r2, n2, b, k2).value), ShapeName)
    ensures Within(r1, n1, k1, a, r2, n2, k2, b)
  {
    hide Acyclic, InterfaceView, NormalItems, Sort, FunctionDescribed, ClosedInterface, DeclaresResource;
    forall i | 0 <= i < |a.types| && IsResource(r1.types, a.types[i].id)
      ensures DeclaresResource(r2.types, b, a.types[i].name)
    {
      var x := SResource(a.types[i].name);
      InterfaceTells(r1, n1, a, k1, x);
      DeclaredHere(r1.types, a, i);
      var y := NormalMember(InterfaceView(r1, n1, a, k1).value, InterfaceView(r2, n2, b, k2).value, x);
      InterfaceTells(r2, n2, b, k2, y);
    }
    ClosedFunctions(r1, a);
    ClosedFunctions(r2, b);
    forall i | 0 <= i < |a.functions|
      ensures HasLike(r1.types, n1, k1, a.functions[i], r2, n2, k2, b)
    {
      var fs := ShownFunction(r1, n1, a, k1, i);
      var x := SFunc(a.functions[i].name, fs);
      var y := NormalMember(InterfaceView(r1, n1, a, k1).value, InterfaceView(r2, n2, b, k2).value, x);
      InterfaceTells(r2, n2, b, k2, y);
      assert DeclaresFunction(r2.types, n2, k2, b, x.name, fs);
      var j :| 0 <= j < |b.functions| && b.functions[j].name == x.name
        && FunctionDescribed(r2.types, n2, k2, b.functions[j], fs);
      assert FunctionsAlike(r1.types, n1, k1, a.functions[i], r2.types, n2, k2, b.functions[j]);
    }
  }

  lemma ClosedFunctions(res: Resolve, iface: Interface)
    requires ClosedInterface(res, iface)
    ensures forall i :: 0 <= i < |iface.functions| ==> ClosedFunction(res.types, iface.functions[i])
  {}

  ghost predicate CleanEntry(res: Resolve, e: Entry)
    requires ClosedEntry(res, e)
  {
    && (e.item.InterfaceItem? ==> CleanInterface(res, res.interfaces[e.item.interface]))
    && (e.key.ByName? ==> IsIdentifier(e.key.name))
  }

  /** What two declarations show is the same in normal form only if they are alike. */
  lemma ShownAlike(
    r1: Resolve, n1: Names, k1: map<TypeId, nat>, a: Entry, x: ItemShape,
    r2: Resolve, n2: Names, k2: map<TypeId, nat>, b: Entry, y: ItemShape)
    requires Acyclic(r1.types, k1) && ClosedEntry(r1, a) && Acyclic(r2.types, k2) && ClosedEntry(r2, b)
    requires CleanEntry(r1, a) && CleanEntry(r2, b)
    requires EntryView(r1, n1, a, k1).Some? && x in EntryView(r1, n1, a, k1).value
    requires EntryView(r2, n2, b, k2).Some? && y in EntryView(r2, n2, b, k2).value
    requires NormalItem(x) == NormalItem(y)
    ensures EntriesAlike(r1, n1, k1, a, r2, n2, k2, b)
  {
    hide Acyclic, InterfaceView, FunctionView, FunctionDescribed, QualifiedInterfaceName, NormalItems, Sort, Within;
    match (a.item, b.item)
    case (FunctionItem(f), FunctionItem(g)) =>
      FunctionViewIff(r1.types, n1, k1, f, x.func);
      FunctionViewIff(r2.types, n2, k2, g, y.func);
    case (InterfaceItem(i), InterfaceItem(j)) =>
      QualifiedNameTells(r1, r1.interfaces[i], r2, r2.interfaces[j]);
      WithinShown(r1, n1, k1, r1.interfaces[i], r2, n2, k2, r2.interfaces[j]);
      WithinShown(r2, n2, k2, r2.interfaces[j], r1, n1, k1, r1.interfaces[i]);
    case _ =>
  }

  /** Every declaration that shows has its like among the others. */
  ghost predicate Matched(
    r1: Resolve, n1: Names, k1: map<TypeId, nat>, a: seq<Entry>, r2: Resolve, n2: Names, k2: map<TypeId, nat>, b: seq<Entry>)
    requires Acyclic(r1.types, k1) && ClosedEntries(r1, a) && Acyclic(r2.types, k2) && ClosedEntries(r2, b)
  {
    forall i :: 0 <= i < |a| && (a[i].item.TypeItem? ==> IsResource(r1.types, a[i].item.id)) ==>
      exists j :: 0 <= j < |b| && EntriesAlike(r1, n1, k1, a[i], r2, n2, k2, b[j])
  }

  ghost predicate CleanEntries(res: Resolve, entries: seq<Entry>)
    requires ClosedEntries(res, entries)
  {
    forall i :: 0 <= i < |entries| ==> CleanEntry(res, entries[i])
  }

  lemma SomethingShown(res: Resolve, names: Names, e: Entry, rank: map<TypeId, nat>) returns (x: ItemShape)
    requires Acyclic(res.types, rank) && ClosedEntry(res, e) && EntryView(res, names, e, rank).Some?
    requires e.item.TypeItem? ==> IsResource(res.types, e.item.id)
    ensures x in EntryView(res, names, e, rank).value
  {
    hide Acyclic, InterfaceView, FunctionView;
    x := EntryView(res, names, e, rank).value[0];
  }

  lemma ShownMatched(
    r1: Resolve, n1: Names, k1: map<TypeId, nat>, a: seq<Entry>, r2: Resolve, n2: Names, k2: map<TypeId, nat>, b: seq<Entry>)
    requires Acyclic(r1.types, k1) && ClosedEntries(r1, a) && Acyclic(r2.types, k2) && ClosedEntries(r2, b)
    requires CleanEntries(r1, a) && CleanEntries(r2, b)
    requires ItemsView(r1, n1, a, k1).Some? && ItemsView(r2, n2, b, k2).Some?
    requires Sort(NormalItems(ItemsView(r1, n1, a, k1).value), ShapeName)
          == Sort(NormalItems(ItemsView(r2, n2, b, k2).value), ShapeName)
    ensures Matched(r1, n1, k1, a, r2, n2, k2, b)
  {
    hide Acyclic, EntryView, NormalItems, NormalItem, Sort, EntriesAlike, ClosedEntry, CleanEntry;
    var p, q := EntryViews(r1, n1, a, k1), EntryViews(r2, n2, b, k2);
    forall i | 0 <= i < |a| && (a[i].item.TypeItem? ==> IsResource(r1.types, a[i].item.id))
      ensures exists j :: 0 <= j < |b| && EntriesAlike(r1, n1, k1, a[i], r2, n2, k2, b[j])
    {
      GatherMember(p, SResource(""));
      assert p[i].Some?;
      var x := SomethingShown(r1, n1, a[i], k1);
      GatherMember(p, x);
      var y := NormalMember(ItemsView(r1, n1, a, k1).value, ItemsView(r2, n2, b, k2).value, x);
      GatherMember(q, y);
      var j :| 0 <= j < |q| && y in q[j].value;
      ShownAlike(r1, n1, k1, a[i], x, r2, n2, k2, b[j], y);
    }
  }

  ghost predicate CleanWorld(res: Resolve, w: World)
    requires ClosedEntries(res, w.imports) && ClosedEntries(res, w.exports)
  {
    CleanEntries(res, w.imports) && CleanEntries(res, w.exports)
  }

  /** Worlds with one canonical document declare the same: every import and export of one has its like
    * in the other, interfaces with the same namespace, package, name and version, functions with the
    * same types in order, result and asynchrony, and resources of the same names. */
  lemma DocumentsTell(
    r1: Resolve, w1: WorldId, k1: map<TypeId, nat>, r2: Resolve, w2: WorldId, k2: map<TypeId, nat>)
    requires Resolved(r1, k1) && Resolved(r2, k2) && w1 in r1.worlds && w2 in r2.worlds
    requires CleanWorld(r1, r1.worlds[w1]) && CleanWorld(r2, r2.worlds[w2])
    requires CanonicalDoc(r1, w1, k1).Some? && CanonicalDoc(r1, w1, k1) == CanonicalDoc(r2, w2, k2)
    ensures WorldNames(r1, r1.worlds[w1]).Some? && WorldNames(r2, r2.worlds[w2]).Some?
    ensures
      var a, b := r1.worlds[w1], r2.worlds[w2];
      var n1, n2 := WorldNames(r1, a).value, WorldNames(r2, b).value;
      && Matched(r1, n1, k1, a.imports, r2, n2, k2, b.imports) && Matched(r2, n2, k2, b.imports, r1, n1, k1, a.imports)
      && Matched(r1, n1, k1, a.exports, r2, n2, k2, b.exports) && Matched(r2, n2, k2, b.exports, r1, n1, k1, a.exports)
  {
    hide Acyclic, ItemsView, NormalItems, Sort, Matched, CleanEntries, WorldNames, SortKeys, WorldJson, ClosedEntries;
    DigestsEqualIff(r1, w1, k1, r2, w2, k2);
    var a, b := r1.worlds[w1], r2.worlds[w2];
    var n1, n2 := WorldNames(r1, a).value, WorldNames(r2, b).value;
    ShownMatched(r1, n1, k1, a.imports, r2, n2, k2, b.imports);
    ShownMatched(r2, n2, k2, b.imports, r1, n1, k1, a.imports);
    ShownMatched(r1, n1, k1, a.exports, r2, n2, k2, b.exports);
    ShownMatched(r2, n2, k2, b.exports, r1, n1, k1, a.exports);
  }

  // ---- resources -------------------------------------------------------------------------------

  /** Where a resource is declared: in an interface, or by the world itself. */
  datatype Origin =
    | InInterface(namespace: string, package: string, interface: string, version: Option<string>, name: string)
    | AtWorld(name: string)

  /** The declaration brings in the resource `rid` as `o` says. */
  ghost predicate BringsIn(res: Resolve, e: Entry, rid: TypeId, o: Origin)
    requires ClosedEntry(res, e)
  {
    && rid in res.types && res.types[rid] == Resource
    && match e.item
       case FunctionItem(_) => false
       case InterfaceItem(id) =>
         var iface := res.interfaces[id];
         && iface.name.Some? && iface.package.Some?
         && var pkg := res.packages[iface.package.value];
            exists i :: 0 <= i < |iface.types| && iface.types[i].id == rid
              && o == InInterface(pkg.namespace, pkg.name, iface.name.value, pkg.version, iface.types[i].name)
       case TypeItem(id) => id == rid && e.key.ByName? && o == AtWorld(e.key.name)
  }

  ghost predicate IsOrigin(res: Resolve, w: World, rid: TypeId, o: Origin)
    requires ClosedEntries(res, w.imports) && ClosedEntries(res, w.exports)
  {
    BroughtIn(res, w.imports, rid, o) || BroughtIn(res, w.exports, rid, o)
  }

  ghost predicate BroughtIn(res: Resolve, entries: seq<Entry>, rid: TypeId, o: Origin)
    requires ClosedEntries(res, entries)
  {
    exists i :: 0 <= i < |entries| && BringsIn(res, entries[i], rid, o)
  }

  /** The name of a resource, from its origin. */
  function Spelled(o: Origin): string {
    match o
    case InInterface(ns, pkg, iface, version, name) =>
      ns + [':'] + (pkg + ['/'] + Versioned(iface, version)) + ['/'] + name
    case AtWorld(name) => "$world" + ['/'] + name
  }

  predicate CleanOrigin(o: Origin) {
    && IsIdentifier(o.name)
    && (o.InInterface? ==> IsIdentifier(o.namespace) && IsIdentifier(o.package) && IsIdentifier(o.interface))
  }

  lemma CutLast(a: string, x: string, b: string, y: string, sep: char)
    requires sep !in x && sep !in y && a + [sep] + x == b + [sep] + y
    ensures a == b && x == y
  {
    var s := a + [sep] + x;
    assert s[|a|] == sep && s[|b|] == sep;
    assert forall k :: |a| < k < |s| ==> s[k] == x[k - |a| - 1];
    assert forall k :: |b| < k < |s| ==> s[k] == y[k - |b| - 1];
    assert s[..|a|] == a && s[..|b|] == b && s[|a| + 1..] == x && s[|b| + 1..] == y;
  }

  /** Different origins have different names. */
  lemma SpelledTells(o: Origin, q: Origin)
    requires CleanOrigin(o) && CleanOrigin(q) && Spelled(o) == Spelled(q)
    ensures o == q
  {
    hide Versioned;
    var a := if o.AtWorld? then "$world" else o.namespace + [':'] + (o.package + ['/'] + Versioned(o.interface, o.version));
    var b := if q.AtWorld? then "$world" else q.namespace + [':'] + (q.package + ['/'] + Versioned(q.interface, q.version));
    CutLast(a, o.name, b, q.name, '/');
    if o.InInterface? && q.InInterface? {
      var m, n := Versioned(o.interface, o.version), Versioned(q.interface, q.version);
      CutAt(o.namespace, o.package + ['/'] + m, q.namespace, q.package + ['/'] + n, ':');
      CutAt(o.package, m, q.package, n, '/');
      VersionedTells(o.interface, o.version, q.interface, q.version);
    } else {
      NoInterface();
      if o.InInterface? {
        HasColon(o.namespace, o.package + ['/'] + Versioned(o.interface, o.version));
      } else if q.InInterface? {
        HasColon(q.namespace, q.package + ['/'] + Versioned(q.interface, q.version));
      }
    }
  }

  lemma HasColon(a: string, b: string)
    ensures ':' in a + [':'] + b
  {
    assert (a + [':'] + b)[|a|] == ':';
  }

  lemma NoInterface()
    ensures ':' !in "$world"
  {}

  /** What a declaration lists. */
  lemma ListingsTell(res: Resolve, e: Entry, rid: TypeId, name: string)
    requires ClosedEntry(res, e) && EntryListings(res, e).Some?
    ensures Listing(rid, name) in EntryListings(res, e).value <==>
      exists o :: BringsIn(res, e, rid, o) && name == Spelled(o)
  {
    hide Versioned, QualifiedInterfaceName;
    if e.item.InterfaceItem? {
      var iface := res.interfaces[e.item.interface];
      NamedAndPackaged(res, iface);
      QualifiedIs(res, iface);
      var pkg := res.packages[iface.package.value];
      var prefix := QualifiedInterfaceName(res, iface).value;
      var rs := ResourceTypes(res.types, iface.types);
      var ls := Listings(prefix, rs);
      if Listing(rid, name) in ls {
        var k :| 0 <= k < |ls| && ls[k] == Listing(rid, name);
        ResourceTypesMember(res.types, iface.types, rs[k]);
        var i :| 0 <= i < |iface.types| && iface.types[i] == rs[k];
        var o := InInterface(pkg.namespace, pkg.name, iface.name.value, pkg.version, rs[k].name);
        assert BringsIn(res, e, rid, o);
      }
      if o :| BringsIn(res, e, rid, o) && name == Spelled(o) {
        var i :| 0 <= i < |iface.types| && iface.types[i].id == rid
          && o == InInterface(pkg.namespace, pkg.name, iface.name.value, pkg.version, iface.types[i].name);
        ResourceTypesMember(res.types, iface.types, iface.types[i]);
        var k :| 0 <= k < |rs| && rs[k] == iface.types[i];
        assert ls[k] == Listing(rid, name);
      }
    } else if e.item.TypeItem? && e.key.ByName? {
      assert "$world/" + e.key.name == "$world" + ['/'] + e.key.name;
      if IsResource(res.types, rid) && e.item.id == rid { assert BringsIn(res, e, rid, AtWorld(e.key.name)); }
    }
  }

  lemma NamedAndPackaged(res: Resolve, iface: Interface)
    requires ClosedInterface(res, iface) && QualifiedInterfaceName(res, iface).Some?
    ensures iface.name.Some? && iface.package.Some?
  {}

  lemma {:induction false} ListedTells(listings: seq<Listing>, out: Names, rid: TypeId)
    ensures rid in Listed(listings, out) <==> rid in out || exists name :: Listing(rid, name) in listings
    ensures rid in Listed(listings, out) ==>
      Listing(rid, Listed(listings, out)[rid]) in listings || (rid in out && Listed(listings, out)[rid] == out[rid])
  {
    if listings != [] {
      var last := listings[|listings| - 1];
      ListedTells(listings[..|listings| - 1], out, rid);
      assert listings == listings[..|listings| - 1] + [last];
      if last.id == rid { assert Listing(rid, last.name) in listings; }
    }
  }

  lemma AllListingsTell(res: Resolve, entries: seq<Entry>, rid: TypeId, name: string)
    requires ClosedEntries(res, entries) && Gather(AllListings(res, entries)).Some?
    ensures Listing(rid, name) in Gather(AllListings(res, entries)).value <==>
      exists o :: BroughtIn(res, entries, rid, o) && name == Spelled(o)
  {
    hide ClosedEntry, EntryListings, BringsIn, Spelled;
    var parts := AllListings(res, entries);
    GatherMember(parts, Listing(rid, name));
    forall i | 0 <= i < |entries|
      ensures Listing(rid, name) in parts[i].value <==> exists o :: BringsIn(res, entries[i], rid, o) && name == Spelled(o)
    {
      ListingsTell(res, entries[i], rid, name);
    }
    if i :| 0 <= i < |entries| && Listing(rid, name) in parts[i].value {
      var o :| BringsIn(res, entries[i], rid, o) && name == Spelled(o);
      assert BroughtIn(res, entries, rid, o);
    }
  }

  /** A world names exactly the resources that its declarations bring in, each by one of its origins. */
  lemma NamesTell(res: Resolve, w: World, rid: TypeId)
    requires ClosedEntries(res, w.imports) && ClosedEntries(res, w.exports) && WorldNames(res, w).Some?
    ensures rid in WorldNames(res, w).value <==> exists o :: IsOrigin(res, w, rid, o)
    ensures rid in WorldNames(res, w).value ==>
      exists o :: IsOrigin(res, w, rid, o) && WorldNames(res, w).value[rid] == Spelled(o)
  {
    hide ClosedEntries, AllListings, Gather, BroughtIn, Spelled, Listed;
    var i, e := Gather(AllListings(res, w.imports)).value, Gather(AllListings(res, w.exports)).value;
    var names := WorldNames(res, w).value;
    assert names == Listed(e, Listed(i, map[]));
    ListedTells(i, map[], rid);
    ListedTells(e, Listed(i, map[]), rid);
    forall name
      ensures Listing(rid, name) in i <==>
        exists o :: BroughtIn(res, w.imports, rid, o) && name == Spelled(o)
      ensures Listing(rid, name) in e <==>
        exists o :: BroughtIn(res, w.exports, rid, o) && name == Spelled(o)
    {
      AllListingsTell(res, w.imports, rid, name);
      AllListingsTell(res, w.exports, rid, name);
    }
    if rid in names {
      assert Listing(rid, names[rid]) in i || Listing(rid, names[rid]) in e;
      var o :| (BroughtIn(res, w.imports, rid, o) || BroughtIn(res, w.exports, rid, o)) && names[rid] == Spelled(o);
      assert IsOrigin(res, w, rid, o);
    }
    forall o | IsOrigin(res, w, rid, o) ensures rid in names {
      assert BroughtIn(res, w.imports, rid, o) ==> Listing(rid, Spelled(o)) in i;
      assert BroughtIn(res, w.exports, rid, o) ==> Listing(rid, Spelled(o)) in e;
    }
  }

  lemma OriginsAreClean(res: Resolve, w: World, rid: TypeId, o: Origin)
    requires ClosedEntries(res, w.imports) && ClosedEntries(res, w.exports) && CleanWorld(res, w)
    requires IsOrigin(res, w, rid, o)
    ensures CleanOrigin(o)
  {
    hide ClosedEntry;
    if i :| 0 <= i < |w.imports| && BringsIn(res, w.imports[i], rid, o) {
      assert CleanEntry(res, w.imports[i]);
    } else {
      var i :| 0 <= i < |w.exports| && BringsIn(res, w.exports[i], rid, o);
      assert CleanEntry(res, w.exports[i]);
    }
  }

  /** Resources that go by one name, in one world or in two, have an origin in common: the same
    * interface, of the same package and version, and the same name there. */
  lemma ResourceNamesTell(r1: Resolve, w1: World, a: TypeId, r2: Resolve, w2: World, b: TypeId)
    requires ClosedEntries(r1, w1.imports) && ClosedEntries(r1, w1.exports) && CleanWorld(r1, w1)
    requires ClosedEntries(r2, w2.imports) && ClosedEntries(r2, w2.exports) && CleanWorld(r2, w2)
    requires WorldNames(r1, w1).Some? && a in WorldNames(r1, w1).value
    requires WorldNames(r2, w2).Some? && b in WorldNames(r2, w2).value
    requires WorldNames(r1, w1).value[a] == WorldNames(r2, w2).value[b]
    ensures exists o :: IsOrigin(r1, w1, a, o) && IsOrigin(r2, w2, b, o)
  {
    hide ClosedEntries, CleanWorld, WorldNames, IsOrigin, Spelled, CleanOrigin;
    NamesTell(r1, w1, a);
    NamesTell(r2, w2, b);
    var o :| IsOrigin(r1, w1, a, o) && WorldNames(r1, w1).value[a] == Spelled(o);
    var q :| IsOrigin(r2, w2, b, q) && WorldNames(r2, w2).value[b] == Spelled(q);
    OriginsAreClean(r1, w1, a, o);
    OriginsAreClean(r2, w2, b, q);
    SpelledTells(o, q);
  }
}
