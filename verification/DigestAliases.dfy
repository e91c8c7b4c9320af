/** Where aliases leave a trace in the canonical world document: a handle must hold the resource's own
  * id, not that of an alias.  Which aliases are harmless is stated exactly.
  */
module DigestAliases {
  import opened Prelude
  import opened TypeTable
  import opened TypeShapes
  import opened TypeDigest
  import opened WorldDigest
  import opened DigestInvariance

  // ---- tables that differ in handles -----------------------------------------------------------

  /** The same handle with an alias of its resource put in front of it. */
  ghost predicate ThroughAlias(table: Table, rank: map<TypeId, nat>, was: Kind, now: Kind)
    requires Acyclic(table, rank)
  {
    match (was, now)
    case (Own(r), Own(a)) => a != r && Leads(table, rank, Id(a), Id(r))
    case (Borrow(r), Borrow(a)) => a != r && Leads(table, rank, Id(a), Id(r))
    case _ => false
  }

  /** The table after aliases were put in front of the resources of some of its handles. */
  ghost predicate HandlesAliased(was: Table, now: Table, rank: map<TypeId, nat>)
    requires Acyclic(now, rank)
  {
    was.Keys == now.Keys
    && forall id :: id in was ==> now[id] == was[id] || ThroughAlias(now, rank, was[id], now[id])
  }

  /** Equal, or handles of the same kind of which the second holds an id without a name. */
  predicate UnnamedHandle(names: Names, was: Kind, now: Kind) {
    now == was || (was.Own? && now.Own? && now.resource !in names)
    || (was.Borrow? && now.Borrow? && now.resource !in names)
  }

  ghost predicate HandlesUnnamed(names: Names, was: Table, now: Table) {
    was.Keys == now.Keys && forall id :: id in was ==> UnnamedHandle(names, was[id], now[id])
  }

  /** Refused, or the same. */
  predicate AtMost<T(==)>(now: Option<T>, was: Option<T>) {
    now.None? || now == was
  }

  lemma {:induction false} ShapeKept(names: Names, was: Table, now: Table, ty: Type, rank: map<TypeId, nat>)
    requires Acyclic(was, rank) && Acyclic(now, rank) && HandlesUnnamed(names, was, now)
    requires Known(was, ty)
    ensures AtMost(Unfold(now, names, ty, rank), Unfold(was, names, ty, rank))
    decreases Height(ty, rank), 0, 0
  {
    if ty.Id? { EntryKept(names, was, now, ty.id, rank); }
  }

  lemma {:induction false} EntryKept(names: Names, was: Table, now: Table, id: TypeId, rank: map<TypeId, nat>)
    requires Acyclic(was, rank) && Acyclic(now, rank) && HandlesUnnamed(names, was, now) && id in was
    ensures AtMost(Unfold(now, names, Id(id), rank), Unfold(was, names, Id(id), rank))
    decreases rank[id], 2, 0
  {
    EntryUnder(was, rank, id);
    EntryUnder(now, rank, id);
    assert UnnamedHandle(names, was[id], now[id]);
    hide Acyclic, HandlesUnnamed;
    var b := rank[id];
    match was[id]
    case Alias(t) => ShapeKept(names, was, now, t, rank);
    case Record(fields) => ShapesKept(names, was, now, TypesOf(fields), rank, b);
    case Tuple(types) => ShapesKept(names, was, now, types, rank, b);
    case Variant(cases) => OptionsKept(names, was, now, PayloadsOf(cases), rank, b);
    case OptionOf(t) => ShapeKept(names, was, now, t, rank);
    case ResultOf(ok, err) =>
      OptionKept(names, was, now, ok, rank, b);
      OptionKept(names, was, now, err, rank, b);
    case List(t) => ShapeKept(names, was, now, t, rank);
    case FixedLengthList(t, _) => ShapeKept(names, was, now, t, rank);
    case MapOf(k, v) => ShapesKept(names, was, now, [k, v], rank, b);
    case FutureOf(t) => OptionKept(names, was, now, t, rank, b);
    case StreamOf(t) => OptionKept(names, was, now, t, rank, b);
    case _ =>
  }

  lemma {:induction false} ShapesKept(names: Names, was: Table, now: Table, types: seq<Type>, rank: map<TypeId, nat>, b: nat)
    requires Acyclic(was, rank) && Acyclic(now, rank) && HandlesUnnamed(names, was, now)
    requires AllUnder(was, rank, types, b) && AllUnder(now, rank, types, b)
    ensures AtMost(UnfoldAll(now, names, types, rank, b), UnfoldAll(was, names, types, rank, b))
    decreases b, 1, |types|
  {
    hide Acyclic, HandlesUnnamed, Unfold;
    if types != [] {
      assert Under(was, rank, types[0], b);
      ShapeKept(names, was, now, types[0], rank);
      ShapesKept(names, was, now, types[1..], rank, b);
    }
  }

  lemma {:induction false} OptionKept(names: Names, was: Table, now: Table, t: Option<Type>, rank: map<TypeId, nat>, b: nat)
    requires Acyclic(was, rank) && Acyclic(now, rank) && HandlesUnnamed(names, was, now)
    requires OptUnder(was, rank, t, b) && OptUnder(now, rank, t, b)
    ensures AtMost(UnfoldOption(now, names, t, rank, b), UnfoldOption(was, names, t, rank, b))
    decreases b, 1, 0
  {
    hide Acyclic, HandlesUnnamed, Unfold;
    if t.Some? { ShapeKept(names, was, now, t.value, rank); }
  }

  lemma {:induction false} OptionsKept(names: Names, was: Table, now: Table, types: seq<Option<Type>>, rank: map<TypeId, nat>, b: nat)
    requires Acyclic(was, rank) && Acyclic(now, rank) && HandlesUnnamed(names, was, now)
    requires OptsUnder(was, rank, types, b) && OptsUnder(now, rank, types, b)
    ensures AtMost(UnfoldOptions(now, names, types, rank, b), UnfoldOptions(was, names, types, rank, b))
    decreases b, 1, |types|
  {
    hide Acyclic, HandlesUnnamed, UnfoldOption;
    if types != [] {
      assert OptUnder(was, rank, types[0], b) && OptUnder(now, rank, types[0], b);
      OptionKept(names, was, now, types[0], rank, b);
      OptionsKept(names, was, now, types[1..], rank, b);
    }
  }

  // ---- functions, items and worlds -------------------------------------------------------------

  /** The types a function mentions. */
  function FunctionTypes(f: Function): seq<Type> {
    ParamTypes(f.params) + if f.result.Some? then [f.result.value] else []
  }

  /** Some type the function mentions has no shape. */
  ghost predicate Refused(table: Table, names: Names, f: Function, rank: map<TypeId, nat>)
    requires Acyclic(table, rank) && ClosedFunction(table, f)
  {
    exists i :: 0 <= i < |FunctionTypes(f)| && ShapeOf(table, names, FunctionTypes(f)[i], rank) == None
  }

  lemma {:induction false} ShapesOfKept(names: Names, was: Table, now: Table, types: seq<Type>, rank: map<TypeId, nat>)
    requires Acyclic(was, rank) && Acyclic(now, rank) && HandlesUnnamed(names, was, now)
    requires forall i :: 0 <= i < |types| ==> Known(was, types[i]) && Known(now, types[i])
    requires ShapesOf(was, names, types, rank).Some?
    ensures ShapesOf(now, names, types, rank)
         == if exists i :: 0 <= i < |types| && ShapeOf(now, names, types[i], rank) == None then None
            else ShapesOf(was, names, types, rank)
  {
    hide Acyclic, HandlesUnnamed, ShapeOf, Known;
    if types != [] {
      var last := |types| - 1;
      ShapesOfKept(names, was, now, types[..last], rank);
      OneShapeKept(names, was, now, types[last], rank);
      if exists i :: 0 <= i < |types| && ShapeOf(now, names, types[i], rank) == None {
        var i :| 0 <= i < |types| && ShapeOf(now, names, types[i], rank) == None;
        assert i == last || types[..last][i] == types[i];
      }
    }
  }

  lemma OneShapeKept(names: Names, was: Table, now: Table, ty: Type, rank: map<TypeId, nat>)
    requires Acyclic(was, rank) && Acyclic(now, rank) && HandlesUnnamed(names, was, now)
    requires Known(was, ty) && Known(now, ty)
    ensures AtMost(ShapeOf(now, names, ty, rank), ShapeOf(was, names, ty, rank))
  {
    ShapeKept(names, was, now, ty, rank);
  }

  lemma FunctionKept(names: Names, was: Table, now: Table, f: Function, rank: map<TypeId, nat>)
    requires Acyclic(was, rank) && Acyclic(now, rank) && HandlesUnnamed(names, was, now)
    requires ClosedFunction(was, f) && ClosedFunction(now, f) && FunctionView(was, names, f, rank).Some?
    ensures FunctionView(now, names, f, rank)
         == if Refused(now, names, f, rank) then None else FunctionView(was, names, f, rank)
  {
    hide Acyclic, HandlesUnnamed, ShapeOf, ShapesOf;
    var ps, types := ParamTypes(f.params), FunctionTypes(f);
    ShapesOfKept(names, was, now, ps, rank);
    assert forall i :: 0 <= i < |ps| ==> types[i] == ps[i];
    if f.result.Some? {
      OneShapeKept(names, was, now, f.result.value, rank);
      assert types[|ps|] == f.result.value;
    }
  }

  lemma {:induction false} GatherKept<T>(was: seq<Option<seq<T>>>, now: seq<Option<seq<T>>>)
    requires |was| == |now| && Gather(was).Some?
    requires forall i :: 0 <= i < |was| ==> was[i].Some? ==> AtMost(now[i], was[i])
    ensures forall i :: 0 <= i < |was| ==> was[i].Some?
    ensures Gather(now) == if exists i :: 0 <= i < |now| && now[i].None? then None else Gather(was)
  {
    if was != [] {
      var last := |was| - 1;
      GatherKept(was[..last], now[..last]);
      assert forall i :: 0 <= i < last ==> was[..last][i] == was[i] && now[..last][i] == now[i];
      if exists i :: 0 <= i < |now| && now[i].None? {
        var i :| 0 <= i < |now| && now[i].None?;
        assert i == last || now[..last][i].None?;
      }
    }
  }

  /** The functions that a declaration brings in. */
  function EntryFunctions(res: Resolve, e: Entry): seq<Function>
    requires ClosedEntry(res, e)
  {
    match e.item
    case FunctionItem(f) => [f]
    case InterfaceItem(id) => res.interfaces[id].functions
    case TypeItem(_) => []
  }

  /** Some function of the declaration is refused. */
  ghost predicate EntryRefused(res: Resolve, names: Names, e: Entry, rank: map<TypeId, nat>)
    requires Acyclic(res.types, rank) && ClosedEntry(res, e)
  {
    exists f :: f in EntryFunctions(res, e) && Refused(res.types, names, f, rank)
  }

  lemma FunctionsKept(names: Names, was: Table, now: Table, fs: seq<Function>, rank: map<TypeId, nat>)
    requires Acyclic(was, rank) && Acyclic(now, rank) && HandlesUnnamed(names, was, now)
    requires forall i :: 0 <= i < |fs| ==> ClosedFunction(was, fs[i]) && ClosedFunction(now, fs[i])
    requires Gather(FunctionViews(was, names, fs, rank)).Some?
    ensures Gather(FunctionViews(now, names, fs, rank))
         == if exists f :: f in fs && Refused(now, names, f, rank) then None else Gather(FunctionViews(was, names, fs, rank))
  {
    hide Acyclic, HandlesUnnamed, FunctionView, Refused, ClosedFunction;
    var a, b := FunctionViews(was, names, fs, rank), FunctionViews(now, names, fs, rank);
    forall i | 0 <= i < |fs| && a[i].Some?
      ensures AtMost(b[i], a[i]) && (b[i].None? <==> Refused(now, names, fs[i], rank))
    {
      FunctionKept(names, was, now, fs[i], rank);
    }
    GatherKept(a, b);
  }

  lemma SameResources(was: Table, now: Table, names: Names, types: seq<NamedType>)
    requires HandlesUnnamed(names, was, now)
    ensures ResourceTypes(now, types) == ResourceTypes(was, types)
  {
    if types != [] { SameResources(was, now, names, types[..|types| - 1]); }
  }

  lemma DeclarationKept(res: Resolve, now: Table, names: Names, e: Entry, rank: map<TypeId, nat>)
    requires Acyclic(res.types, rank) && Acyclic(now, rank) && HandlesUnnamed(names, res.types, now)
    requires ClosedEntry(res, e) && ClosedEntry(res.(types := now), e) && EntryView(res, names, e, rank).Some?
    ensures EntryView(res.(types := now), names, e, rank)
         == if EntryRefused(res.(types := now), names, e, rank) then None else EntryView(res, names, e, rank)
  {
    hide Acyclic, HandlesUnnamed, FunctionView, Refused, FunctionViews, ResourceTypes;
    match e.item
    case FunctionItem(f) =>
      assert f in EntryFunctions(res.(types := now), e);
      FunctionKept(names, res.types, now, f, rank);
    case InterfaceItem(id) =>
      FunctionsKept(names, res.types, now, res.interfaces[id].functions, rank);
      SameResources(res.types, now, names, res.interfaces[id].types);
    case TypeItem(id) => ResourceAlike(res.types, now, names, id);
  }

  lemma ResourceAlike(was: Table, now: Table, names: Names, id: TypeId)
    requires HandlesUnnamed(names, was, now)
    ensures IsResource(now, id) == IsResource(was, id)
  {}

  lemma ItemsKept(res: Resolve, now: Table, names: Names, entries: seq<Entry>, rank: map<TypeId, nat>)
    requires Acyclic(res.types, rank) && Acyclic(now, rank) && HandlesUnnamed(names, res.types, now)
    requires ClosedEntries(res, entries) && ClosedEntries(res.(types := now), entries)
    requires ItemsView(res, names, entries, rank).Some?
    ensures ItemsView(res.(types := now), names, entries, rank)
         == if exists i :: 0 <= i < |entries| && EntryRefused(res.(types := now), names, entries[i], rank) then None
            else ItemsView(res, names, entries, rank)
  {
    hide Acyclic, HandlesUnnamed, EntryView, EntryRefused, ClosedEntry;
    var a, b := EntryViews(res, names, entries, rank), EntryViews(res.(types := now), names, entries, rank);
    forall i | 0 <= i < |entries| && a[i].Some?
      ensures AtMost(b[i], a[i]) && (b[i].None? <==> EntryRefused(res.(types := now), names, entries[i], rank))
    {
      DeclarationKept(res, now, names, entries[i], rank);
    }
    GatherKept(a, b);
  }

  // ---- what a refusal comes from ---------------------------------------------------------------

  /** A type the function mentions leads to a handle that was changed. */
  ghost predicate FunctionTouched(was: Table, now: Table, f: Function)
    requires was.Keys == now.Keys
  {
    exists i, ids :: 0 <= i < |FunctionTypes(f)| && Touches(was, now, FunctionTypes(f)[i], ids)
  }

  ghost predicate Touches(was: Table, now: Table, ty: Type, ids: seq<TypeId>)
    requires was.Keys == now.Keys
  {
    Chain(was, ids) && ty == Id(ids[0]) && now[ids[|ids| - 1]] != was[ids[|ids| - 1]]
  }

  /** Only handles change, and those refer to nothing in value positions. */
  lemma SameChains(names: Names, was: Table, now: Table, ids: seq<TypeId>)
    requires HandlesUnnamed(names, was, now)
    ensures Chain(was, ids) <==> Chain(now, ids)
  {
    forall i | 0 < i < |ids| && ids[i - 1] in was
      ensures RefersTo(was[ids[i - 1]], ids[i]) <==> RefersTo(now[ids[i - 1]], ids[i])
    {
      assert UnnamedHandle(names, was[ids[i - 1]], now[ids[i - 1]]);
    }
  }

  lemma ChangedIsFaulty(names: Names, was: Table, now: Table, id: TypeId)
    requires HandlesUnnamed(names, was, now) && id in was && now[id] != was[id]
    ensures Faulty(now, names, id)
  {
    assert UnnamedHandle(names, was[id], now[id]);
  }

  lemma UnnamedKeys(names: Names, was: Table, now: Table)
    requires HandlesUnnamed(names, was, now)
    ensures was.Keys == now.Keys
  {}

  lemma TypeRefusedIff(names: Names, was: Table, now: Table, ty: Type, rank: map<TypeId, nat>)
    requires Acyclic(was, rank) && Acyclic(now, rank) && HandlesUnnamed(names, was, now)
    requires Known(was, ty) && Known(now, ty) && ShapeOf(was, names, ty, rank).Some?
    ensures ShapeOf(now, names, ty, rank) == None <==> exists ids :: Touches(was, now, ty, ids)
  {
    hide Acyclic, Unfold, Chain;
    if ShapeOf(now, names, ty, rank) == None {
      var id := NoneHasId(now, names, ty, rank);
      var ids := RefusedIsFaulty(now, names, id, rank);
      SameChains(names, was, now, ids);
      ChainIsThere(was, ids);
      if now[ids[|ids| - 1]] == was[ids[|ids| - 1]] {
        assert ReachesFault(was, names, id, ids);
        FaultyIsRefused(was, names, id, ids, rank);
      }
      assert Touches(was, now, ty, ids);
    }
    forall ids | Touches(was, now, ty, ids) ensures ShapeOf(now, names, ty, rank) == None {
      SameChains(names, was, now, ids);
      ChainIsThere(was, ids);
      ChangedIsFaulty(names, was, now, ids[|ids| - 1]);
      FaultyIsRefused(now, names, ids[0], ids, rank);
    }
  }

  lemma ChainIsThere(table: Table, ids: seq<TypeId>)
    requires Chain(table, ids)
    ensures ids != [] && ids[0] in table && ids[|ids| - 1] in table
  {}

  lemma {:induction false} ShownTypesHaveShapes(table: Table, names: Names, types: seq<Type>, rank: map<TypeId, nat>, i: nat)
    requires Acyclic(table, rank) && i < |types| && forall j :: 0 <= j < |types| ==> Known(table, types[j])
    requires ShapesOf(table, names, types, rank).Some?
    ensures ShapeOf(table, names, types[i], rank).Some?
  {
    hide Acyclic, ShapeOf, Known;
    if i < |types| - 1 { ShownTypesHaveShapes(table, names, types[..|types| - 1], rank, i); }
  }

  lemma FunctionRefusedIff(names: Names, was: Table, now: Table, f: Function, rank: map<TypeId, nat>)
    requires Acyclic(was, rank) && Acyclic(now, rank) && HandlesUnnamed(names, was, now)
    requires ClosedFunction(was, f) && ClosedFunction(now, f) && FunctionView(was, names, f, rank).Some?
    ensures Refused(now, names, f, rank) <==> FunctionTouched(was, now, f)
  {
    hide Acyclic, ShapeOf, ShapesOf, HandlesUnnamed, Touches;
    UnnamedKeys(names, was, now);
    var types := FunctionTypes(f);
    forall i | 0 <= i < |types|
      ensures Known(was, types[i]) && Known(now, types[i])
      ensures ShapeOf(now, names, types[i], rank) == None <==> exists ids :: Touches(was, now, types[i], ids)
    {
      if i < |f.params| {
        assert types[i] == ParamTypes(f.params)[i] == f.params[i].ty;
        ShownTypesHaveShapes(was, names, ParamTypes(f.params), rank, i);
      } else {
        assert types[i] == f.result.value;
      }
      TypeRefusedIff(names, was, now, types[i], rank);
    }
  }

  // ---- the whole document ----------------------------------------------------------------------

  ghost predicate EntryTouched(res: Resolve, now: Table, e: Entry)
    requires ClosedEntry(res, e) && res.types.Keys == now.Keys
  {
    exists f :: f in EntryFunctions(res, e) && FunctionTouched(res.types, now, f)
  }

  /** Some function of the world leads to a handle that was changed. */
  ghost predicate WorldTouched(res: Resolve, now: Table, w: World)
    requires ClosedEntries(res, w.imports) && ClosedEntries(res, w.exports) && res.types.Keys == now.Keys
  {
    || (exists i :: 0 <= i < |w.imports| && EntryTouched(res, now, w.imports[i]))
    || (exists i :: 0 <= i < |w.exports| && EntryTouched(res, now, w.exports[i]))
  }

  lemma SomeFunction(res: Resolve, names: Names, fs: seq<Function>, rank: map<TypeId, nat>, f: Function)
    requires Acyclic(res.types, rank) && forall i :: 0 <= i < |fs| ==> ClosedFunction(res.types, fs[i])
    requires Gather(FunctionViews(res.types, names, fs, rank)).Some? && f in fs
    ensures ClosedFunction(res.types, f) && FunctionView(res.types, names, f, rank).Some?
  {
    hide Acyclic, FunctionView, ClosedFunction;
    var i :| 0 <= i < |fs| && fs[i] == f;
    var a := FunctionViews(res.types, names, fs, rank);
    if a[i].None? { GatherNone(a, i); }
  }

  lemma EntryRefusedIff(res: Resolve, now: Table, names: Names, e: Entry, rank: map<TypeId, nat>)
    requires Acyclic(res.types, rank) && Acyclic(now, rank) && HandlesUnnamed(names, res.types, now)
    requires ClosedEntry(res, e) && ClosedEntry(res.(types := now), e) && EntryView(res, names, e, rank).Some?
    ensures EntryRefused(res.(types := now), names, e, rank) <==> EntryTouched(res, now, e)
  {
    hide Acyclic, FunctionView, FunctionTouched, Refused, ClosedFunction;
    forall f | f in EntryFunctions(res, e)
      ensures ClosedFunction(res.types, f) && ClosedFunction(now, f)
      ensures Refused(now, names, f, rank) <==> FunctionTouched(res.types, now, f)
    {
      if e.item.InterfaceItem? { SomeFunction(res, names, EntryFunctions(res, e), rank, f); }
      FunctionRefusedIff(names, res.types, now, f, rank);
    }
  }

  lemma EntriesRefusedIff(res: Resolve, now: Table, names: Names, entries: seq<Entry>, rank: map<TypeId, nat>)
    requires Acyclic(res.types, rank) && Acyclic(now, rank) && HandlesUnnamed(names, res.types, now)
    requires ClosedEntries(res, entries) && ClosedEntries(res.(types := now), entries)
    requires ItemsView(res, names, entries, rank).Some?
    ensures ItemsView(res.(types := now), names, entries, rank)
         == if exists i :: 0 <= i < |entries| && EntryTouched(res, now, entries[i]) then None
            else ItemsView(res, names, entries, rank)
  {
    hide Acyclic, HandlesUnnamed, EntryView, EntryRefused, EntryTouched, ClosedEntry;
    UnnamedKeys(names, res.types, now);
    ItemsKept(res, now, names, entries, rank);
    var a := EntryViews(res, names, entries, rank);
    forall i | 0 <= i < |entries|
      ensures EntryRefused(res.(types := now), names, entries[i], rank) <==> EntryTouched(res, now, entries[i])
    {
      if a[i].None? { GatherNone(a, i); }
      EntryRefusedIff(res, now, names, entries[i], rank);
    }
  }

  lemma SameListings(res: Resolve, now: Table, rank: map<TypeId, nat>, entries: seq<Entry>)
    requires Acyclic(now, rank) && HandlesAliased(res.types, now, rank)
    requires ClosedEntries(res, entries) && ClosedEntries(res.(types := now), entries)
    ensures AllListings(res.(types := now), entries) == AllListings(res, entries)
  {
    hide Acyclic, ThroughAlias;
    forall i | 0 <= i < |entries| ensures EntryListings(res.(types := now), entries[i]) == EntryListings(res, entries[i]) {
      match entries[i].item
      case InterfaceItem(id) => SameResourceTypes(res.types, now, rank, res.interfaces[id].types);
      case TypeItem(id) => AliasedNotResource(res.types, now, rank, id);
      case _ =>
    }
  }

  lemma AliasedNotResource(was: Table, now: Table, rank: map<TypeId, nat>, id: TypeId)
    requires Acyclic(now, rank) && HandlesAliased(was, now, rank)
    ensures IsResource(now, id) == IsResource(was, id)
  {
    hide Acyclic;
    if id in was && now[id] != was[id] { assert ThroughAlias(now, rank, was[id], now[id]); }
  }

  lemma {:induction false} SameResourceTypes(was: Table, now: Table, rank: map<TypeId, nat>, types: seq<NamedType>)
    requires Acyclic(now, rank) && HandlesAliased(was, now, rank)
    ensures ResourceTypes(now, types) == ResourceTypes(was, types)
  {
    hide Acyclic, HandlesAliased, IsResource;
    if types != [] {
      SameResourceTypes(was, now, rank, types[..|types| - 1]);
      AliasedNotResource(was, now, rank, types[|types| - 1].id);
    }
  }

  /** An alias is not a resource, so no world gives it a name. */
  lemma AliasesUnnamed(res: Resolve, now: Table, w: World, rank: map<TypeId, nat>)
    requires Acyclic(now, rank) && HandlesAliased(res.types, now, rank)
    requires ClosedEntries(res.(types := now), w.imports) && ClosedEntries(res.(types := now), w.exports)
    requires WorldNames(res.(types := now), w).Some?
    ensures HandlesUnnamed(WorldNames(res.(types := now), w).value, res.types, now)
  {
    hide Acyclic, WorldNames;
    var names := WorldNames(res.(types := now), w).value;
    forall id | id in res.types ensures UnnamedHandle(names, res.types[id], now[id]) {
      if now[id] != res.types[id] {
        assert ThroughAlias(now, rank, res.types[id], now[id]);
        var a := now[id].resource;
        assert now[a].Alias?;
        if a in names { NamesAreResources(res.(types := now), w, a); }
      }
    }
  }

  lemma AliasedHandlesKeepWorld(res: Resolve, now: Table, w: World, rank: map<TypeId, nat>)
    requires Acyclic(res.types, rank) && ClosedEntries(res, w.imports) && ClosedEntries(res, w.exports)
    requires Acyclic(now, rank)
    requires ClosedEntries(res.(types := now), w.imports) && ClosedEntries(res.(types := now), w.exports)
    requires HandlesAliased(res.types, now, rank) && WorldView(res, w, rank).Some?
    ensures WorldView(res.(types := now), w, rank)
         == if WorldTouched(res, now, w) then None else WorldView(res, w, rank)
  {
    hide Acyclic, HandlesAliased, ClosedEntries, AllListings, ItemsView, EntryTouched, HandlesUnnamed;
    SameListings(res, now, rank, w.imports);
    SameListings(res, now, rank, w.exports);
    AliasesUnnamed(res, now, w, rank);
    AliasedKeys(res.types, now, rank);
    var names := WorldNames(res, w).value;
    EntriesRefusedIff(res, now, names, w.imports, rank);
    EntriesRefusedIff(res, now, names, w.exports, rank);
  }

  lemma AliasedKeys(was: Table, now: Table, rank: map<TypeId, nat>)
    requires Acyclic(now, rank) && HandlesAliased(was, now, rank)
    ensures was.Keys == now.Keys
  {}

  /** Putting aliases in front of the resources that handles hold keeps the document as it is if no
    * function of the world leads to one of these handles, and otherwise no document can be written. */
  lemma AliasedHandlesKeepDocument(res: Resolve, now: Table, world: WorldId, rank: map<TypeId, nat>)
    requires Resolved(res, rank) && Resolved(res.(types := now), rank) && HandlesAliased(res.types, now, rank)
    requires CanonicalDoc(res, world, rank).Some?
    ensures CanonicalDoc(res.(types := now), world, rank)
         == if WorldTouched(res, now, res.worlds[world]) then None else CanonicalDoc(res, world, rank)
  {
    hide Acyclic, HandlesAliased, ClosedEntries, WorldTouched, WorldView;
    AliasedHandlesKeepWorld(res, now, res.worlds[world], rank);
  }

  /** All insertions of aliases together: in front of value types they leave no trace, and in front of
    * handles' resources the document is kept exactly while no function leads there. */
  lemma InsertedAliases(
    f: map<TypeId, TypeId>, r1: Resolve, w1: WorldId, rank1: map<TypeId, nat>,
    r2: Resolve, w2: WorldId, rank2: map<TypeId, nat>, now: Table)
    requires Resolved(r1, rank1) && Resolved(r2, rank2) && w1 in r1.worlds && w2 in r2.worlds
    requires WorldRespelt(f, r1, r1.worlds[w1], rank1, r2, r2.worlds[w2], rank2)
    requires Resolved(r2.(types := now), rank2) && HandlesAliased(r2.types, now, rank2)
    requires CanonicalDoc(r1, w1, rank1).Some?
    ensures CanonicalDoc(r2.(types := now), w2, rank2) == CanonicalDoc(r1, w1, rank1)
       <==> !WorldTouched(r2, now, r2.worlds[w2])
  {
    hide Acyclic, HandlesAliased, ClosedEntries, WorldTouched, WorldView;
    RespellingKeepsDocument(f, r1, w1, rank1, r2, w2, rank2);
    AliasedHandlesKeepDocument(r2, now, w2, rank2);
  }

  // A resource 0, an alias 1 of it, and a function that takes a handle 2 to one of the two.

  function ExampleTypes(held: TypeId): Table {
    map[0 := Resource, 1 := Alias(Id(0)), 2 := Own(held)]
  }

  const EXAMPLE_RANK: map<TypeId, nat> := map[0 := 0, 1 := 1, 2 := 0]

  const TAKES_HANDLE: Function := Function("f", Freestanding, [Param("x", Id(2))], None)

  const EXAMPLE_WORLD: World :=
    World([Entry(ByName("r"), TypeItem(0)), Entry(ByName("f"), FunctionItem(TAKES_HANDLE))], [])

  function ExampleResolve(held: TypeId): Resolve {
    Resolve(ExampleTypes(held), map[], map[], map[0 := EXAMPLE_WORLD])
  }

  lemma ExampleResolved(held: TypeId)
    ensures Resolved(ExampleResolve(held), EXAMPLE_RANK)
  {}

  lemma ExampleNames()
    ensures Resolved(ExampleResolve(0), EXAMPLE_RANK)
    ensures WorldNames(ExampleResolve(0), EXAMPLE_WORLD) == Some(map[0 := "$world/r"])
  {
    ExampleResolved(0);
    var res := ExampleResolve(0);
    var parts := AllListings(res, EXAMPLE_WORLD.imports);
    var l := Listing(0, "$world/r");
    assert "$world/" + "r" == "$world/r";
    assert parts == [Some([l]), Some([])];
    assert parts[..1] == [Some([l])] && parts[..1][..0] == [];
    assert Gather(parts[..1]) == Some([l]) by { assert [] + [l] == [l]; }
    assert Gather(parts) == Some([l]) by { assert [l] + [] == [l]; }
    assert AllListings(res, []) == [];
    assert Listed([], map[]) == map[];
    assert [l][..0] == [];
    assert Listed([l], map[]) == map[0 := "$world/r"];
  }

  lemma {:induction false} GatherAll<T>(parts: seq<Option<seq<T>>>)
    requires forall i :: 0 <= i < |parts| ==> parts[i].Some?
    ensures Gather(parts).Some?
  {
    if parts != [] { GatherAll(parts[..|parts| - 1]); }
  }

  lemma ExampleFunction(names: Names)
    requires 0 in names && Acyclic(ExampleTypes(0), EXAMPLE_RANK)
    ensures FunctionView(ExampleTypes(0), names, TAKES_HANDLE, EXAMPLE_RANK).Some?
  {
    var types := ParamTypes(TAKES_HANDLE.params);
    assert types == [Id(2)] && types[..0] == [];
    assert ShapeOf(ExampleTypes(0), names, Id(2), EXAMPLE_RANK) == Some(SOwn(names[0]));
    assert ShapesOf(ExampleTypes(0), names, types, EXAMPLE_RANK).Some?;
  }

  lemma ExampleShown()
    ensures Resolved(ExampleResolve(0), EXAMPLE_RANK)
    ensures CanonicalDoc(ExampleResolve(0), 0, EXAMPLE_RANK).Some?
  {
    hide FunctionView, ShapesOf, ShapeOf, Gather;
    ExampleNames();
    var res := ExampleResolve(0);
    var names: Names := map[0 := "$world/r"];
    ExampleFunction(names);
    GatherAll(EntryViews(res, names, EXAMPLE_WORLD.imports, EXAMPLE_RANK));
    GatherAll(EntryViews(res, names, [], EXAMPLE_RANK));
  }

  /** The function may take the resource, and may not take its alias. */
  lemma AliasedHandleExample()
    ensures Resolved(ExampleResolve(0), EXAMPLE_RANK) && Resolved(ExampleResolve(1), EXAMPLE_RANK)
    ensures CanonicalDoc(ExampleResolve(0), 0, EXAMPLE_RANK).Some?
    ensures CanonicalDoc(ExampleResolve(1), 0, EXAMPLE_RANK) == None
  {
    hide CanonicalDoc, Acyclic;
    ExampleResolved(0);
    ExampleResolved(1);
    ExampleShown();
    var res, now := ExampleResolve(0), ExampleTypes(1);
    assert res.(types := now) == ExampleResolve(1);
    assert Leads(now, EXAMPLE_RANK, Id(1), Id(0));
    assert Touches(res.types, now, FunctionTypes(TAKES_HANDLE)[0], [2]);
    assert TAKES_HANDLE in EntryFunctions(res, EXAMPLE_WORLD.imports[1]);
    AliasedHandlesKeepDocument(res, now, 0, EXAMPLE_RANK);
  }
}
