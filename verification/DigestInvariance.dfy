/** What the canonical world document is meant to ignore: type ids, aliases, parameter names and the
  * order of declarations.
  */
module DigestInvariance {
  import opened Prelude
  import opened StableSort
  import opened CanonicalJson
  import opened TypeTable
  import opened TypeShapes
  import opened TypeDigest
  import opened WorldDigest
  import opened DigestMeaning

  // ---- respelling: ids, aliases and parameter names --------------------------------------------

  /** The same function with renumbered and possibly aliased types; parameter names are free. */
  ghost predicate FunctionRespelt(f: map<TypeId, TypeId>, t2: Table, r2: map<TypeId, nat>, a: Function, b: Function)
    requires Acyclic(t2, r2)
  {
    && a.name == b.name
    && AllRespelt(f, t2, r2, ParamTypes(a.params), ParamTypes(b.params))
    && OptRespelt(f, t2, r2, a.result, b.result)
    && IsAsync(a.kind) == IsAsync(b.kind)
    && a.kind.Constructor? == b.kind.Constructor?
    && (a.kind.Constructor? ==> a.kind.resource in f && b.kind.resource == f[a.kind.resource])
  }

  ghost predicate FunctionsRespelt(f: map<TypeId, TypeId>, t2: Table, r2: map<TypeId, nat>, a: seq<Function>, b: seq<Function>)
    requires Acyclic(t2, r2)
  {
    |a| == |b| && forall i :: 0 <= i < |a| ==> FunctionRespelt(f, t2, r2, a[i], b[i])
  }

  /** The same resources under their new numbers; other named types may come and go. */
  ghost predicate ResourcesRespelt(f: map<TypeId, TypeId>, a: seq<NamedType>, b: seq<NamedType>) {
    |a| == |b| && forall i :: 0 <= i < |a| ==> a[i].id in f && b[i] == NamedType(a[i].name, f[a[i].id])
  }

  ghost predicate InterfaceRespelt(
    f: map<TypeId, TypeId>, r1: Resolve, a: Interface, r2: Resolve, b: Interface, rank2: map<TypeId, nat>)
    requires Acyclic(r2.types, rank2) && ClosedInterface(r1, a) && ClosedInterface(r2, b)
  {
    && QualifiedInterfaceName(r1, a) == QualifiedInterfaceName(r2, b)
    && ResourcesRespelt(f, ResourceTypes(r1.types, a.types), ResourceTypes(r2.types, b.types))
    && FunctionsRespelt(f, r2.types, rank2, a.functions, b.functions)
  }

  ghost predicate EntryRespelt(
    f: map<TypeId, TypeId>, r1: Resolve, a: Entry, r2: Resolve, b: Entry, rank2: map<TypeId, nat>)
    requires Acyclic(r2.types, rank2) && ClosedEntry(r1, a) && ClosedEntry(r2, b)
  {
    match a.item
    case FunctionItem(g) =>
      b.item.FunctionItem? && a.key == b.key && FunctionRespelt(f, r2.types, rank2, g, b.item.f)
    case InterfaceItem(id) =>
      b.item.InterfaceItem?
      && InterfaceRespelt(f, r1, r1.interfaces[id], r2, r2.interfaces[b.item.interface], rank2)
    case TypeItem(id) => b.item.TypeItem? && a.key == b.key && id in f && b.item.id == f[id]
  }

  ghost predicate EntriesRespelt(
    f: map<TypeId, TypeId>, r1: Resolve, a: seq<Entry>, r2: Resolve, b: seq<Entry>, rank2: map<TypeId, nat>)
    requires Acyclic(r2.types, rank2) && ClosedEntries(r1, a) && ClosedEntries(r2, b)
  {
    |a| == |b| && forall i :: 0 <= i < |a| ==> EntryRespelt(f, r1, a[i], r2, b[i], rank2)
  }

  lemma SameResource(f: map<TypeId, TypeId>, t1: Table, t2: Table, rank2: map<TypeId, nat>, id: TypeId)
    requires Acyclic(t2, rank2) && TableRespelt(f, t1, t2, rank2) && id in t1
    ensures IsResource(t2, f[id]) == IsResource(t1, id)
  {
    assert KindRespelt(f, t2, rank2, t1[id], t2[f[id]]);
  }

  // names

  ghost predicate ListingsRespelt(f: map<TypeId, TypeId>, a: seq<Listing>, b: seq<Listing>) {
    |a| == |b| && forall i :: 0 <= i < |a| ==> a[i].id in f && b[i] == Listing(f[a[i].id], a[i].name)
  }

  ghost predicate OneToOne(f: map<TypeId, TypeId>) {
    forall i, j :: i in f && j in f && f[i] == f[j] ==> i == j
  }

  lemma {:induction false} ListedRespelt(f: map<TypeId, TypeId>, a: seq<Listing>, b: seq<Listing>, n1: Names, n2: Names)
    requires OneToOne(f) && ListingsRespelt(f, a, b) && NamesRespelt(f, n1, n2)
    ensures NamesRespelt(f, Listed(a, n1), Listed(b, n2))
  {
    if a != [] {
      var last := |a| - 1;
      ListedRespelt(f, a[..last], b[..last], n1, n2);
    }
  }

  lemma EntryListingsRespelt(
    f: map<TypeId, TypeId>, r1: Resolve, a: Entry, r2: Resolve, b: Entry, rank2: map<TypeId, nat>)
    requires Acyclic(r2.types, rank2) && TableRespelt(f, r1.types, r2.types, rank2)
    requires ClosedEntry(r1, a) && ClosedEntry(r2, b) && EntryRespelt(f, r1, a, r2, b, rank2)
    ensures EntryListings(r1, a).Some? == EntryListings(r2, b).Some?
    ensures EntryListings(r1, a).Some? ==> ListingsRespelt(f, EntryListings(r1, a).value, EntryListings(r2, b).value)
  {
    hide Acyclic, TableRespelt;
    if a.item.TypeItem? { SameResource(f, r1.types, r2.types, rank2, a.item.id); }
  }

  lemma {:induction false} GatherListingsRespelt(
    f: map<TypeId, TypeId>, a: seq<Option<seq<Listing>>>, b: seq<Option<seq<Listing>>>)
    requires |a| == |b|
    requires forall i :: 0 <= i < |a| ==> a[i].Some? == b[i].Some?
    requires forall i :: 0 <= i < |a| ==> a[i].Some? ==> ListingsRespelt(f, a[i].value, b[i].value)
    ensures Gather(a).Some? == Gather(b).Some?
    ensures Gather(a).Some? ==> ListingsRespelt(f, Gather(a).value, Gather(b).value)
  {
    if a != [] {
      var last := |a| - 1;
      GatherListingsRespelt(f, a[..last], b[..last]);
    }
  }

  lemma ListingsOfEntriesRespelt(
    f: map<TypeId, TypeId>, r1: Resolve, a: seq<Entry>, r2: Resolve, b: seq<Entry>, rank2: map<TypeId, nat>)
    requires Acyclic(r2.types, rank2) && TableRespelt(f, r1.types, r2.types, rank2)
    requires ClosedEntries(r1, a) && ClosedEntries(r2, b) && EntriesRespelt(f, r1, a, r2, b, rank2)
    ensures var l1, l2 := Gather(AllListings(r1, a)), Gather(AllListings(r2, b));
      l1.Some? == l2.Some? && (l1.Some? ==> ListingsRespelt(f, l1.value, l2.value))
  {
    hide Acyclic, TableRespelt, EntryListings, ListingsRespelt, EntryRespelt;
    var p1, p2 := AllListings(r1, a), AllListings(r2, b);
    forall i | 0 <= i < |a|
      ensures p1[i].Some? == p2[i].Some? && (p1[i].Some? ==> ListingsRespelt(f, p1[i].value, p2[i].value))
    {
      assert EntryRespelt(f, r1, a[i], r2, b[i], rank2);
      EntryListingsRespelt(f, r1, a[i], r2, b[i], rank2);
    }
    GatherListingsRespelt(f, p1, p2);
  }

  // views

  lemma ShapeOfRespelt(
    f: map<TypeId, TypeId>, t1: Table, n1: Names, rank1: map<TypeId, nat>, a: Type,
    t2: Table, n2: Names, rank2: map<TypeId, nat>, b: Type)
    requires Acyclic(t1, rank1) && Known(t1, a) && Acyclic(t2, rank2) && Known(t2, b)
    requires TableRespelt(f, t1, t2, rank2) && NamesRespelt(f, n1, n2) && Respelt(f, t2, rank2, a, b)
    ensures ShapeOf(t1, n1, a, rank1) == ShapeOf(t2, n2, b, rank2)
  {
    RespellingKeepsShape(f, t1, n1, rank1, a, t2, n2, rank2, b);
  }

  lemma {:induction false} ShapesOfRespelt(
    f: map<TypeId, TypeId>, t1: Table, n1: Names, rank1: map<TypeId, nat>, a: seq<Type>,
    t2: Table, n2: Names, rank2: map<TypeId, nat>, b: seq<Type>)
    requires Acyclic(t1, rank1) && (forall i :: 0 <= i < |a| ==> Known(t1, a[i]))
    requires Acyclic(t2, rank2) && (forall i :: 0 <= i < |b| ==> Known(t2, b[i]))
    requires TableRespelt(f, t1, t2, rank2) && NamesRespelt(f, n1, n2) && AllRespelt(f, t2, rank2, a, b)
    ensures ShapesOf(t1, n1, a, rank1) == ShapesOf(t2, n2, b, rank2)
  {
    hide Acyclic, TableRespelt, NamesRespelt, Respelt, ShapeOf, Known;
    if a != [] {
      var last := |a| - 1;
      ShapesOfRespelt(f, t1, n1, rank1, a[..last], t2, n2, rank2, b[..last]);
      ShapeOfRespelt(f, t1, n1, rank1, a[last], t2, n2, rank2, b[last]);
    }
  }

  lemma FunctionViewRespelt(
    f: map<TypeId, TypeId>, t1: Table, n1: Names, rank1: map<TypeId, nat>, a: Function,
    t2: Table, n2: Names, rank2: map<TypeId, nat>, b: Function)
    requires Acyclic(t1, rank1) && ClosedFunction(t1, a) && Acyclic(t2, rank2) && ClosedFunction(t2, b)
    requires TableRespelt(f, t1, t2, rank2) && NamesRespelt(f, n1, n2) && FunctionRespelt(f, t2, rank2, a, b)
    ensures FunctionView(t1, n1, a, rank1) == FunctionView(t2, n2, b, rank2)
  {
    hide Acyclic, TableRespelt, Respelt, ShapeOf, ShapesOf, Known, AllRespelt;
    ShapesOfRespelt(f, t1, n1, rank1, ParamTypes(a.params), t2, n2, rank2, ParamTypes(b.params));
    if a.result.Some? {
      ShapeOfRespelt(f, t1, n1, rank1, a.result.value, t2, n2, rank2, b.result.value);
    }
  }

  lemma FunctionViewsRespelt(
    f: map<TypeId, TypeId>, t1: Table, n1: Names, rank1: map<TypeId, nat>, a: seq<Function>,
    t2: Table, n2: Names, rank2: map<TypeId, nat>, b: seq<Function>)
    requires Acyclic(t1, rank1) && (forall i :: 0 <= i < |a| ==> ClosedFunction(t1, a[i]))
    requires Acyclic(t2, rank2) && (forall i :: 0 <= i < |b| ==> ClosedFunction(t2, b[i]))
    requires TableRespelt(f, t1, t2, rank2) && NamesRespelt(f, n1, n2) && FunctionsRespelt(f, t2, rank2, a, b)
    ensures FunctionViews(t1, n1, a, rank1) == FunctionViews(t2, n2, b, rank2)
  {
    hide Acyclic, TableRespelt, NamesRespelt, FunctionRespelt, FunctionView, ClosedFunction;
    var p1, p2 := FunctionViews(t1, n1, a, rank1), FunctionViews(t2, n2, b, rank2);
    forall i | 0 <= i < |p1| ensures p1[i] == p2[i] {
      FunctionViewRespelt(f, t1, n1, rank1, a[i], t2, n2, rank2, b[i]);
      SameName(f, t2, rank2, a[i], b[i]);
    }
  }

  lemma ResourceItemsRespelt(f: map<TypeId, TypeId>, a: seq<NamedType>, b: seq<NamedType>)
    requires ResourcesRespelt(f, a, b)
    ensures ResourceItems(a) == ResourceItems(b)
  {}

  lemma InterfaceViewRespelt(
    f: map<TypeId, TypeId>, r1: Resolve, n1: Names, rank1: map<TypeId, nat>, a: Interface,
    r2: Resolve, n2: Names, rank2: map<TypeId, nat>, b: Interface)
    requires Acyclic(r1.types, rank1) && ClosedInterface(r1, a) && Acyclic(r2.types, rank2) && ClosedInterface(r2, b)
    requires TableRespelt(f, r1.types, r2.types, rank2) && NamesRespelt(f, n1, n2)
    requires InterfaceRespelt(f, r1, a, r2, b, rank2)
    ensures InterfaceView(r1, n1, a, rank1) == InterfaceView(r2, n2, b, rank2)
  {
    hide Acyclic, TableRespelt, NamesRespelt, FunctionsRespelt, ResourcesRespelt, FunctionViews, QualifiedInterfaceName,
         ResourceItems, ResourceTypes, Gather, ClosedFunction;
    FunctionViewsRespelt(f, r1.types, n1, rank1, a.functions, r2.types, n2, rank2, b.functions);
    ResourceItemsRespelt(f, ResourceTypes(r1.types, a.types), ResourceTypes(r2.types, b.types));
  }

  lemma SameName(f: map<TypeId, TypeId>, t2: Table, rank2: map<TypeId, nat>, a: Function, b: Function)
    requires Acyclic(t2, rank2) && FunctionRespelt(f, t2, rank2, a, b)
    ensures a.name == b.name
  {}

  lemma EntryViewRespelt(
    f: map<TypeId, TypeId>, r1: Resolve, n1: Names, rank1: map<TypeId, nat>, a: Entry,
    r2: Resolve, n2: Names, rank2: map<TypeId, nat>, b: Entry)
    requires Acyclic(r1.types, rank1) && ClosedEntry(r1, a) && Acyclic(r2.types, rank2) && ClosedEntry(r2, b)
    requires TableRespelt(f, r1.types, r2.types, rank2) && NamesRespelt(f, n1, n2)
    requires EntryRespelt(f, r1, a, r2, b, rank2)
    ensures EntryView(r1, n1, a, rank1) == EntryView(r2, n2, b, rank2)
  {
    hide Acyclic, TableRespelt, NamesRespelt, FunctionView, InterfaceView;
    match a.item
    case FunctionItem(g) => FunctionViewRespelt(f, r1.types, n1, rank1, g, r2.types, n2, rank2, b.item.f);
    case InterfaceItem(id) =>
      InterfaceViewRespelt(f, r1, n1, rank1, r1.interfaces[id], r2, n2, rank2, r2.interfaces[b.item.interface]);
    case TypeItem(id) => SameResource(f, r1.types, r2.types, rank2, id);
  }

  lemma ItemsViewRespelt(
    f: map<TypeId, TypeId>, r1: Resolve, n1: Names, rank1: map<TypeId, nat>, a: seq<Entry>,
    r2: Resolve, n2: Names, rank2: map<TypeId, nat>, b: seq<Entry>)
    requires Acyclic(r1.types, rank1) && ClosedEntries(r1, a) && Acyclic(r2.types, rank2) && ClosedEntries(r2, b)
    requires TableRespelt(f, r1.types, r2.types, rank2) && NamesRespelt(f, n1, n2)
    requires EntriesRespelt(f, r1, a, r2, b, rank2)
    ensures ItemsView(r1, n1, a, rank1) == ItemsView(r2, n2, b, rank2)
  {
    hide Acyclic, TableRespelt, NamesRespelt, EntryRespelt, EntryView;
    var p1, p2 := EntryViews(r1, n1, a, rank1), EntryViews(r2, n2, b, rank2);
    forall i | 0 <= i < |p1| ensures p1[i] == p2[i] {
      EntryViewRespelt(f, r1, n1, rank1, a[i], r2, n2, rank2, b[i]);
    }
    assert p1 == p2;
  }

  // declarations that the document does not mention

  /** The declarations of a world other than its plain named types. */
  function Mentioned(table: Table, entries: seq<Entry>): seq<Entry> {
    if entries == [] then []
    else
      var e := entries[|entries| - 1];
      Mentioned(table, entries[..|entries| - 1])
      + if e.item.TypeItem? && !IsResource(table, e.item.id) then [] else [e]
  }

  lemma {:induction false} MentionedIsClosed(res: Resolve, entries: seq<Entry>)
    requires ClosedEntries(res, entries)
    ensures ClosedEntries(res, Mentioned(res.types, entries))
  {
    hide ClosedEntry;
    if entries != [] { MentionedIsClosed(res, entries[..|entries| - 1]); }
  }

  lemma GatherLast<T>(parts: seq<Option<seq<T>>>, p: Option<seq<T>>)
    ensures Gather(parts + [p])
         == var before := Gather(parts); if before.None? || p.None? then None else Some(before.value + p.value)
  {
    assert (parts + [p])[..|parts|] == parts;
  }

  lemma ListingsOfLast(res: Resolve, before: seq<Entry>, e: Entry)
    requires ClosedEntries(res, before) && ClosedEntry(res, e)
    ensures ClosedEntries(res, before + [e])
    ensures Gather(AllListings(res, before + [e]))
         == (var l, p := Gather(AllListings(res, before)), EntryListings(res, e);
             if l.None? || p.None? then None else Some(l.value + p.value))
  {
    hide ClosedEntry, EntryListings;
    GatherLast(AllListings(res, before), EntryListings(res, e));
    assert AllListings(res, before + [e]) == AllListings(res, before) + [EntryListings(res, e)];
  }

  lemma ViewOfLast(res: Resolve, names: Names, before: seq<Entry>, e: Entry, rank: map<TypeId, nat>)
    requires Acyclic(res.types, rank) && ClosedEntries(res, before) && ClosedEntry(res, e)
    ensures ClosedEntries(res, before + [e])
    ensures ItemsView(res, names, before + [e], rank)
         == (var v, p := ItemsView(res, names, before, rank), EntryView(res, names, e, rank);
             if v.None? || p.None? then None else Some(v.value + p.value))
  {
    hide Acyclic, ClosedEntry, EntryView;
    GatherLast(EntryViews(res, names, before, rank), EntryView(res, names, e, rank));
    assert EntryViews(res, names, before + [e], rank) == EntryViews(res, names, before, rank) + [EntryView(res, names, e, rank)];
  }

  lemma PlainTypeIsSilent(res: Resolve, names: Names, e: Entry, rank: map<TypeId, nat>)
    requires Acyclic(res.types, rank) && ClosedEntry(res, e)
    requires e.item.TypeItem? && !IsResource(res.types, e.item.id)
    ensures EntryListings(res, e) == Some([]) && EntryView(res, names, e, rank) == Some([])
  {}

  lemma {:induction false} PlainTypesAreSilent(res: Resolve, names: Names, entries: seq<Entry>, rank: map<TypeId, nat>)
    requires Acyclic(res.types, rank) && ClosedEntries(res, entries)
    ensures ClosedEntries(res, Mentioned(res.types, entries))
    ensures Gather(AllListings(res, Mentioned(res.types, entries))) == Gather(AllListings(res, entries))
    ensures ItemsView(res, names, Mentioned(res.types, entries), rank) == ItemsView(res, names, entries, rank)
  {
    hide Acyclic, ClosedEntry, EntryView, EntryListings, ItemsView, AllListings, Gather, IsResource;
    MentionedIsClosed(res, entries);
    if entries == [] {
      assert Mentioned(res.types, entries) == entries;
    } else {
      var before, e := entries[..|entries| - 1], entries[|entries| - 1];
      assert entries == before + [e];
      PlainTypesAreSilent(res, names, before, rank);
      var kept := Mentioned(res.types, before);
      ListingsOfLast(res, before, e);
      ViewOfLast(res, names, before, e, rank);
      if e.item.TypeItem? && !IsResource(res.types, e.item.id) {
        PlainTypeIsSilent(res, names, e, rank);
        assert Mentioned(res.types, entries) == kept;
        AddNothing(Gather(AllListings(res, before)));
        AddNothing(ItemsView(res, names, before, rank));
      } else {
        ListingsOfLast(res, kept, e);
        ViewOfLast(res, names, kept, e, rank);
      }
    }
  }

  lemma AddNothing<T>(s: Option<seq<T>>)
    ensures s.Some? ==> s.value + [] == s.value
  {}

  // the whole document

  /** The second world declares what the first does, renumbered by f, perhaps through aliases and
    * with other parameter names, and perhaps with other plain named types. */
  ghost predicate WorldRespelt(
    f: map<TypeId, TypeId>, r1: Resolve, w1: World, rank1: map<TypeId, nat>,
    r2: Resolve, w2: World, rank2: map<TypeId, nat>)
    requires Acyclic(r1.types, rank1) && ClosedEntries(r1, w1.imports) && ClosedEntries(r1, w1.exports)
    requires Acyclic(r2.types, rank2) && ClosedEntries(r2, w2.imports) && ClosedEntries(r2, w2.exports)
  {
    MentionedIsClosed(r1, w1.imports);
    MentionedIsClosed(r1, w1.exports);
    MentionedIsClosed(r2, w2.imports);
    MentionedIsClosed(r2, w2.exports);
    && TableRespelt(f, r1.types, r2.types, rank2)
    && EntriesRespelt(f, r1, Mentioned(r1.types, w1.imports), r2, Mentioned(r2.types, w2.imports), rank2)
    && EntriesRespelt(f, r1, Mentioned(r1.types, w1.exports), r2, Mentioned(r2.types, w2.exports), rank2)
  }

  lemma NamesOfRespelt(
    f: map<TypeId, TypeId>, r1: Resolve, w1: World, rank1: map<TypeId, nat>,
    r2: Resolve, w2: World, rank2: map<TypeId, nat>)
    requires Acyclic(r1.types, rank1) && ClosedEntries(r1, w1.imports) && ClosedEntries(r1, w1.exports)
    requires Acyclic(r2.types, rank2) && ClosedEntries(r2, w2.imports) && ClosedEntries(r2, w2.exports)
    requires WorldRespelt(f, r1, w1, rank1, r2, w2, rank2)
    ensures var n1, n2 := WorldNames(r1, w1), WorldNames(r2, w2);
      n1.Some? == n2.Some? && (n1.Some? ==> NamesRespelt(f, n1.value, n2.value))
  {
    hide Acyclic, TableRespelt, EntriesRespelt, Gather, AllListings, Mentioned, ClosedEntries, ListingsRespelt;
    PlainTypesAreSilent(r1, map[], w1.imports, rank1);
    PlainTypesAreSilent(r1, map[], w1.exports, rank1);
    PlainTypesAreSilent(r2, map[], w2.imports, rank2);
    PlainTypesAreSilent(r2, map[], w2.exports, rank2);
    ListingsOfEntriesRespelt(f, r1, Mentioned(r1.types, w1.imports), r2, Mentioned(r2.types, w2.imports), rank2);
    ListingsOfEntriesRespelt(f, r1, Mentioned(r1.types, w1.exports), r2, Mentioned(r2.types, w2.exports), rank2);
    TableOneToOne(f, r1.types, r2.types, rank2);
    var i1, e1 := Gather(AllListings(r1, w1.imports)), Gather(AllListings(r1, w1.exports));
    var i2, e2 := Gather(AllListings(r2, w2.imports)), Gather(AllListings(r2, w2.exports));
    if i1.Some? && e1.Some? {
      ListedRespelt(f, i1.value, i2.value, map[], map[]);
      ListedRespelt(f, e1.value, e2.value, Listed(i1.value, map[]), Listed(i2.value, map[]));
    }
  }

  lemma TableOneToOne(f: map<TypeId, TypeId>, t1: Table, t2: Table, rank2: map<TypeId, nat>)
    requires Acyclic(t2, rank2) && TableRespelt(f, t1, t2, rank2)
    ensures OneToOne(f)
  {}

  /** Renumbering, aliases and parameter names leave no trace: the same items are shown, or neither
    * world can be written down. */
  lemma RespellingKeepsWorld(
    f: map<TypeId, TypeId>, r1: Resolve, w1: World, rank1: map<TypeId, nat>,
    r2: Resolve, w2: World, rank2: map<TypeId, nat>)
    requires Acyclic(r1.types, rank1) && ClosedEntries(r1, w1.imports) && ClosedEntries(r1, w1.exports)
    requires Acyclic(r2.types, rank2) && ClosedEntries(r2, w2.imports) && ClosedEntries(r2, w2.exports)
    requires WorldRespelt(f, r1, w1, rank1, r2, w2, rank2)
    ensures WorldView(r1, w1, rank1) == WorldView(r2, w2, rank2)
  {
    hide Acyclic, TableRespelt, EntriesRespelt, Mentioned, ClosedEntries, NamesRespelt, WorldNames, ItemsView;
    NamesOfRespelt(f, r1, w1, rank1, r2, w2, rank2);
    var n1, n2 := WorldNames(r1, w1), WorldNames(r2, w2);
    if n1.Some? {
      PlainTypesAreSilent(r1, n1.value, w1.imports, rank1);
      PlainTypesAreSilent(r1, n1.value, w1.exports, rank1);
      PlainTypesAreSilent(r2, n2.value, w2.imports, rank2);
      PlainTypesAreSilent(r2, n2.value, w2.exports, rank2);
      ItemsViewRespelt(f, r1, n1.value, rank1, Mentioned(r1.types, w1.imports),
                       r2, n2.value, rank2, Mentioned(r2.types, w2.imports));
      ItemsViewRespelt(f, r1, n1.value, rank1, Mentioned(r1.types, w1.exports),
                       r2, n2.value, rank2, Mentioned(r2.types, w2.exports));
    }
  }

  lemma RespellingKeepsDocument(
    f: map<TypeId, TypeId>, r1: Resolve, w1: WorldId, rank1: map<TypeId, nat>,
    r2: Resolve, w2: WorldId, rank2: map<TypeId, nat>)
    requires Resolved(r1, rank1) && Resolved(r2, rank2) && w1 in r1.worlds && w2 in r2.worlds
    requires WorldRespelt(f, r1, r1.worlds[w1], rank1, r2, r2.worlds[w2], rank2)
    ensures CanonicalDoc(r1, w1, rank1) == CanonicalDoc(r2, w2, rank2)
  {
    RespellingKeepsWorld(f, r1, r1.worlds[w1], rank1, r2, r2.worlds[w2], rank2);
  }

  // where aliases do leave a trace

  lemma {:induction false} ListedAreResources(table: Table, listings: seq<Listing>, out: Names, id: TypeId)
    requires forall i :: 0 <= i < |listings| ==> IsResource(table, listings[i].id)
    requires id in Listed(listings, out)
    ensures id in out || IsResource(table, id)
  {
    if listings != [] {
      var last := |listings| - 1;
      if id != listings[last].id { ListedAreResources(table, listings[..last], out, id); }
    }
  }

  lemma {:induction false} ResourceTypesAreResources(table: Table, types: seq<NamedType>)
    ensures forall i :: 0 <= i < |ResourceTypes(table, types)| ==> IsResource(table, ResourceTypes(table, types)[i].id)
  {
    if types != [] { ResourceTypesAreResources(table, types[..|types| - 1]); }
  }

  lemma {:induction false} ListingsAreResources(res: Resolve, entries: seq<Entry>)
    requires ClosedEntries(res, entries)
    ensures var l := Gather(AllListings(res, entries));
      l.Some? ==> forall i :: 0 <= i < |l.value| ==> IsResource(res.types, l.value[i].id)
  {
    if entries != [] {
      var before, e := entries[..|entries| - 1], entries[|entries| - 1];
      ListingsAreResources(res, before);
      assert entries == before + [e];
      ListingsOfLast(res, before, e);
      EntryListsResources(res, e);
    }
  }

  lemma EntryListsResources(res: Resolve, e: Entry)
    requires ClosedEntry(res, e)
    ensures var l := EntryListings(res, e);
      l.Some? ==> forall i :: 0 <= i < |l.value| ==> IsResource(res.types, l.value[i].id)
  {
    if e.item.InterfaceItem? {
      ResourceTypesAreResources(res.types, res.interfaces[e.item.interface].types);
    }
  }

  lemma NamesAreResources(res: Resolve, w: World, rid: TypeId)
    requires ClosedEntries(res, w.imports) && ClosedEntries(res, w.exports)
    requires WorldNames(res, w).Some? && rid in WorldNames(res, w).value
    ensures IsResource(res.types, rid)
  {
    hide IsResource, AllListings, Gather, ClosedEntries;
    ListingsAreResources(res, w.imports);
    ListingsAreResources(res, w.exports);
    var i, e := Gather(AllListings(res, w.imports)).value, Gather(AllListings(res, w.exports)).value;
    ListedAreResources(res.types, e, Listed(i, map[]), rid);
    if rid in Listed(i, map[]) { ListedAreResources(res.types, i, map[], rid); }
  }

  /** A handle can be written down exactly when the id it holds is itself a resource that the world
    * lists; the id of an alias of that resource does not do, so a handle is the one place where an
    * alias cannot be put in front of a type. */
  lemma HandleNeedsTheResourceItself(res: Resolve, w: World, rank: map<TypeId, nat>, id: TypeId, rid: TypeId)
    requires Acyclic(res.types, rank) && ClosedEntries(res, w.imports) && ClosedEntries(res, w.exports)
    requires WorldNames(res, w).Some?
    requires id in res.types && (res.types[id] == Own(rid) || res.types[id] == Borrow(rid))
    ensures CanonType(res.types, WorldNames(res, w).value, Id(id), rank).Some? <==> rid in WorldNames(res, w).value
    ensures rid in WorldNames(res, w).value ==> IsResource(res.types, rid)
  {
    if rid in WorldNames(res, w).value { NamesAreResources(res, w, rid); }
  }
}
