/** Declaration order: permuting the imports, the exports and what interfaces declare leaves the
  * canonical world document as it is, provided names are distinct.
  */
module DigestOrder {
  import opened Prelude
  import opened StableSort
  import opened CanonicalJson
  import opened TypeTable
  import opened TypeShapes
  import opened WorldDigest
  import opened DigestMeaning

  // ---- permutations ----------------------------------------------------------------------------

  /** Where an element of a sits in its permutation b. */
  lemma FindInPermutation<T>(a: seq<T>, b: seq<T>) returns (j: nat)
    requires a != [] && multiset(a) == multiset(b)
    ensures j < |b| && b[j] == a[0] && b == b[..j] + [a[0]] + b[j + 1..]
    ensures multiset(a[1..]) == multiset(b[..j] + b[j + 1..])
  {
    assert a[0] in multiset(b);
    j :| 0 <= j < |b| && b[j] == a[0];
    assert b == b[..j] + [a[0]] + b[j + 1..];
    assert a == [a[0]] + a[1..];
    assert multiset(b) == multiset(b[..j] + b[j + 1..]) + multiset{a[0]};
    assert multiset(a) == multiset(a[1..]) + multiset{a[0]};
    assert multiset(a[1..]) == multiset(a) - multiset{a[0]};
    assert multiset(b[..j] + b[j + 1..]) == multiset(b) - multiset{a[0]};
  }

  lemma {:induction false} MapAppend<S, T>(f: S -> T, a: seq<S>, b: seq<S>)
    ensures Map(f, a + b) == Map(f, a) + Map(f, b)
  {}

  lemma {:induction false} MapPermutes<S, T>(f: S -> T, a: seq<S>, b: seq<S>)
    requires multiset(a) == multiset(b)
    ensures multiset(Map(f, a)) == multiset(Map(f, b))
  {
    if a == [] {
      assert |multiset(b)| == 0;
      assert b == [];
    } else {
      var j := FindInPermutation(a, b);
      var rest := b[..j] + b[j + 1..];
      MapPermutes(f, a[1..], rest);
      MapAppend(f, b[..j], b[j + 1..]);
      MapAppend(f, b[..j] + [a[0]], b[j + 1..]);
      MapAppend(f, b[..j], [a[0]]);
      assert Map(f, [a[0]]) == [f(a[0])];
      assert Map(f, a) == [f(a[0])] + Map(f, a[1..]);
    }
  }

  function Joined<T>(a: Option<seq<T>>, b: Option<seq<T>>): Option<seq<T>> {
    if a.None? || b.None? then None else Some(a.value + b.value)
  }

  lemma {:induction false} GatherAppend<T>(a: seq<Option<seq<T>>>, b: seq<Option<seq<T>>>)
    ensures Gather(a + b) == Joined(Gather(a), Gather(b))
  {
    if b == [] {
      assert a + b == a;
      assert Gather(a).Some? ==> Gather(a).value + [] == Gather(a).value;
    } else {
      var last := |b| - 1;
      assert (a + b)[..|a + b| - 1] == a + b[..last];
      GatherAppend(a, b[..last]);
      if Gather(a).Some? && Gather(b[..last]).Some? && b[last].Some? {
        assert (Gather(a).value + Gather(b[..last]).value) + b[last].value
            == Gather(a).value + (Gather(b[..last]).value + b[last].value);
      }
    }
  }

  lemma GatherSingle<T>(p: Option<seq<T>>)
    ensures Gather([p]) == p
  {
    assert [p][..0] == [];
    assert p.Some? ==> [] + p.value == p.value;
  }

  /** Gathering a permutation gives a permutation. */
  lemma {:induction false} GatherPermutes<T>(a: seq<Option<seq<T>>>, b: seq<Option<seq<T>>>)
    requires multiset(a) == multiset(b)
    ensures Gather(a).Some? == Gather(b).Some?
    ensures Gather(a).Some? ==> multiset(Gather(a).value) == multiset(Gather(b).value)
  {
    if a == [] {
      assert |multiset(b)| == 0;
      assert b == [];
    } else {
      var j := FindInPermutation(a, b);
      hide Gather;
      GatherPermutes(a[1..], b[..j] + b[j + 1..]);
      assert a == [a[0]] + a[1..];
      GatherAppend([a[0]], a[1..]);
      GatherAppend(b[..j], b[j + 1..]);
      GatherAppend(b[..j] + [a[0]], b[j + 1..]);
      GatherAppend(b[..j], [a[0]]);
      GatherSingle(a[0]);
    }
  }

  // ---- reordered worlds ------------------------------------------------------------------------

  predicate InterfaceReordered(a: Interface, b: Interface) {
    a.name == b.name && a.package == b.package
    && multiset(a.types) == multiset(b.types) && multiset(a.functions) == multiset(b.functions)
  }

  /** The same declarations in another order. */
  ghost predicate Reordered(r1: Resolve, r2: Resolve) {
    && r1.types == r2.types && r1.packages == r2.packages && r1.interfaces.Keys == r2.interfaces.Keys
    && forall id :: id in r1.interfaces ==> InterfaceReordered(r1.interfaces[id], r2.interfaces[id])
  }

  // names

  ghost predicate SameMembers<T(!new)>(a: seq<T>, b: seq<T>) {
    forall x :: x in a <==> x in b
  }

  /** No resource is listed under two names. */
  ghost predicate NamedOnce(listings: seq<Listing>) {
    forall x, y :: x in listings && y in listings && x.id == y.id ==> x.name == y.name
  }

  lemma {:induction false} ListedMembers(listings: seq<Listing>, id: TypeId)
    ensures id in Listed(listings, map[]) <==> exists x :: x in listings && x.id == id
    ensures id in Listed(listings, map[]) ==> Listing(id, Listed(listings, map[])[id]) in listings
  {
    if listings != [] {
      var last := |listings| - 1;
      ListedMembers(listings[..last], id);
      assert listings == listings[..last] + [listings[last]];
    }
  }

  lemma ListedSame(a: seq<Listing>, b: seq<Listing>)
    requires SameMembers(a, b) && NamedOnce(a)
    ensures Listed(a, map[]) == Listed(b, map[])
  {
    var m, n := Listed(a, map[]), Listed(b, map[]);
    forall id ensures id in m <==> id in n {
      ListedMembers(a, id);
      ListedMembers(b, id);
    }
    forall id | id in m ensures m[id] == n[id] {
      ListedMembers(a, id);
      ListedMembers(b, id);
      assert Listing(id, n[id]) in a;
    }
  }

  lemma {:induction false} ResourceTypesCount(table: Table, types: seq<NamedType>, x: NamedType)
    ensures multiset(ResourceTypes(table, types))[x] == if IsResource(table, x.id) then multiset(types)[x] else 0
  {
    if types != [] {
      var last := |types| - 1;
      ResourceTypesCount(table, types[..last], x);
      assert types == types[..last] + [types[last]];
    }
  }

  lemma ResourceTypesPermute(table: Table, a: seq<NamedType>, b: seq<NamedType>)
    requires multiset(a) == multiset(b)
    ensures multiset(ResourceTypes(table, a)) == multiset(ResourceTypes(table, b))
  {
    forall x ensures multiset(ResourceTypes(table, a))[x] == multiset(ResourceTypes(table, b))[x] {
      ResourceTypesCount(table, a, x);
      ResourceTypesCount(table, b, x);
    }
  }

  lemma EntryListingsSame(r1: Resolve, r2: Resolve, e: Entry)
    requires Reordered(r1, r2) && ClosedEntry(r1, e) && ClosedEntry(r2, e)
    ensures EntryListings(r1, e).Some? == EntryListings(r2, e).Some?
    ensures EntryListings(r1, e).Some? ==> SameMembers(EntryListings(r1, e).value, EntryListings(r2, e).value)
  {
    if e.item.InterfaceItem? {
      var a, b := r1.interfaces[e.item.interface], r2.interfaces[e.item.interface];
      assert InterfaceReordered(a, b);
      ResourceTypesPermute(r1.types, a.types, b.types);
      var ta, tb := ResourceTypes(r1.types, a.types), ResourceTypes(r2.types, b.types);
      if EntryListings(r1, e).Some? {
        SameListings(EntryListings(r1, e).value, ta, tb, QualifiedInterfaceName(r1, a).value);
      }
    }
  }

  lemma SameListings(listings: seq<Listing>, a: seq<NamedType>, b: seq<NamedType>, prefix: string)
    requires multiset(a) == multiset(b) && listings == Listings(prefix, a)
    ensures SameMembers(listings, Listings(prefix, b))
  {
    forall x ensures x in listings <==> x in Listings(prefix, b) {
      if i :| 0 <= i < |a| && listings[i] == x {
        assert a[i] in multiset(b);
        var j :| 0 <= j < |b| && b[j] == a[i];
        assert Listings(prefix, b)[j] == x;
      }
      if j :| 0 <= j < |b| && Listings(prefix, b)[j] == x {
        assert b[j] in multiset(a);
        var i :| 0 <= i < |a| && a[i] == b[j];
        assert listings[i] == x;
      }
    }
  }

  ghost predicate PartMatched(p: Option<seq<Listing>>, q: Option<seq<Listing>>) {
    p.Some? == q.Some? && (p.Some? ==> SameMembers(p.value, q.value))
  }

  lemma {:induction false} GatherMatched(p: seq<Option<seq<Listing>>>, q: seq<Option<seq<Listing>>>)
    requires |p| == |q| && forall i :: 0 <= i < |p| ==> PartMatched(p[i], q[i])
    ensures PartMatched(Gather(p), Gather(q))
  {
    if p != [] {
      var last := |p| - 1;
      GatherMatched(p[..last], q[..last]);
      assert PartMatched(p[last], q[last]);
    }
  }

  lemma ListingsPermute(res: Resolve, a: seq<Entry>, b: seq<Entry>)
    requires multiset(a) == multiset(b) && ClosedEntries(res, a) && ClosedEntries(res, b)
    ensures PartMatched(Gather(AllListings(res, a)), Gather(AllListings(res, b)))
  {
    var f := (e: Entry) => if ClosedEntry(res, e) then EntryListings(res, e) else None;
    MapPermutes(f, a, b);
    assert Map(f, a) == AllListings(res, a) && Map(f, b) == AllListings(res, b);
    hide EntryListings, ClosedEntry, AllListings, Gather;
    GatherPermutes(AllListings(res, a), AllListings(res, b));
    if Gather(AllListings(res, a)).Some? {
      PermutedMembers(Gather(AllListings(res, a)).value, Gather(AllListings(res, b)).value);
    }
  }

  lemma PermutedMembers<T(!new)>(a: seq<T>, b: seq<T>)
    requires multiset(a) == multiset(b)
    ensures SameMembers(a, b)
  {
    forall x ensures x in a <==> x in b {
      assert x in a <==> x in multiset(a);
      assert x in b <==> x in multiset(b);
    }
  }

  /** Permuted entries of reordered package sets list the same resources. */
  lemma ListingsOfReordered(r1: Resolve, r2: Resolve, a: seq<Entry>, b: seq<Entry>)
    requires Reordered(r1, r2) && multiset(a) == multiset(b)
    requires ClosedEntries(r1, a) && ClosedEntries(r2, b)
    ensures PartMatched(Gather(AllListings(r1, a)), Gather(AllListings(r2, b)))
  {
    ClosedPermuted(r2, b, a);
    ListingsPermute(r2, a, b);
    hide EntryListings, ClosedEntry, Gather, Reordered;
    forall i | 0 <= i < |a| ensures PartMatched(AllListings(r1, a)[i], AllListings(r2, a)[i]) {
      EntryListingsSame(r1, r2, a[i]);
    }
    GatherMatched(AllListings(r1, a), AllListings(r2, a));
  }

  lemma ClosedPermuted(res: Resolve, a: seq<Entry>, b: seq<Entry>)
    requires ClosedEntries(res, a) && multiset(a) == multiset(b)
    ensures ClosedEntries(res, b)
  {
    hide ClosedEntry;
    forall i | 0 <= i < |b| ensures ClosedEntry(res, b[i]) {
      assert b[i] in multiset(a);
      assert b[i] in a;
    }
  }

  // views

  /** The same items in another order, and with items inside them in another order. */
  ghost predicate ViewMatched(p: Option<seq<ItemShape>>, q: Option<seq<ItemShape>>) {
    p.Some? == q.Some? && (p.Some? ==> multiset(NormalItems(p.value)) == multiset(NormalItems(q.value)))
  }

  lemma NormalItemsAppend(a: seq<ItemShape>, b: seq<ItemShape>)
    ensures NormalItems(a + b) == NormalItems(a) + NormalItems(b)
  {
    hide NormalItem;
  }

  lemma ViewsJoined(p: seq<ItemShape>, p2: seq<ItemShape>, q: seq<ItemShape>, q2: seq<ItemShape>)
    requires multiset(NormalItems(p)) == multiset(NormalItems(q))
    requires multiset(NormalItems(p2)) == multiset(NormalItems(q2))
    ensures multiset(NormalItems(p + p2)) == multiset(NormalItems(q + q2))
  {
    hide NormalItems;
    NormalItemsAppend(p, p2);
    NormalItemsAppend(q, q2);
  }

  lemma {:induction false} GatherViewsMatched(p: seq<Option<seq<ItemShape>>>, q: seq<Option<seq<ItemShape>>>)
    requires |p| == |q| && forall i :: 0 <= i < |p| ==> ViewMatched(p[i], q[i])
    ensures ViewMatched(Gather(p), Gather(q))
  {
    if p != [] {
      hide NormalItems;
      var last := |p| - 1;
      GatherViewsMatched(p[..last], q[..last]);
      assert ViewMatched(p[last], q[last]);
      if Gather(p).Some? {
        ViewsJoined(Gather(p[..last]).value, p[last].value, Gather(q[..last]).value, q[last].value);
      }
    }
  }

  lemma NormalItemsIsMap(items: seq<ItemShape>)
    ensures NormalItems(items) == Map(NormalItem, items)
  {}

  lemma PermutedViews(a: seq<ItemShape>, b: seq<ItemShape>)
    requires multiset(a) == multiset(b)
    ensures multiset(NormalItems(a)) == multiset(NormalItems(b))
  {
    MapPermutes(NormalItem, a, b);
    NormalItemsIsMap(a);
    NormalItemsIsMap(b);
  }

  lemma FunctionViewsPermute(table: Table, names: Names, a: seq<Function>, b: seq<Function>, rank: map<TypeId, nat>)
    requires Acyclic(table, rank) && multiset(a) == multiset(b)
    requires forall i :: 0 <= i < |a| ==> ClosedFunction(table, a[i])
    requires forall i :: 0 <= i < |b| ==> ClosedFunction(table, b[i])
    ensures var va, vb := Gather(FunctionViews(table, names, a, rank)), Gather(FunctionViews(table, names, b, rank));
      va.Some? == vb.Some? && (va.Some? ==> multiset(va.value) == multiset(vb.value))
  {
    hide Acyclic, FunctionItemView, ClosedFunction;
    var f := (g: Function) =>
      if Acyclic(table, rank) && ClosedFunction(table, g) then FunctionItemView(table, names, g.name, g, rank) else None;
    MapPermutes(f, a, b);
    assert Map(f, a) == FunctionViews(table, names, a, rank);
    assert Map(f, b) == FunctionViews(table, names, b, rank);
    GatherPermutes(FunctionViews(table, names, a, rank), FunctionViews(table, names, b, rank));
  }

  lemma InterfaceViewPermutes(r1: Resolve, r2: Resolve, names: Names, a: Interface, b: Interface, rank: map<TypeId, nat>)
    requires r1.types == r2.types && r1.packages == r2.packages && InterfaceReordered(a, b)
    requires Acyclic(r1.types, rank) && ClosedInterface(r1, a) && ClosedInterface(r2, b)
    ensures var va, vb := InterfaceView(r1, names, a, rank), InterfaceView(r2, names, b, rank);
      va.Some? == vb.Some? && (va.Some? ==> multiset(va.value) == multiset(vb.value))
  {
    hide Acyclic, FunctionViews, Gather, ClosedFunction, ResourceTypes;
    FunctionViewsPermute(r1.types, names, a.functions, b.functions, rank);
    ResourceTypesPermute(r1.types, a.types, b.types);
    ResourceItemsPermute(ResourceTypes(r1.types, a.types), ResourceTypes(r1.types, b.types));
  }

  lemma ResourceItemsPermute(a: seq<NamedType>, b: seq<NamedType>)
    requires multiset(a) == multiset(b)
    ensures multiset(ResourceItems(a)) == multiset(ResourceItems(b))
  {
    var f := (t: NamedType) => SResource(t.name);
    MapPermutes(f, a, b);
    assert Map(f, a) == ResourceItems(a) && Map(f, b) == ResourceItems(b);
  }

  /** Within each instance, items have different names. */
  ghost predicate DistinctInside(items: seq<ItemShape>) {
    forall i :: 0 <= i < |items| ==> items[i].SInstance? ==> DistinctKeys(items[i].items, ShapeName)
  }

  ghost predicate PartDistinct(p: Option<seq<ItemShape>>) {
    p.Some? ==> DistinctInside(p.value)
  }

  lemma EntryViewMatched(r1: Resolve, r2: Resolve, names: Names, e: Entry, rank: map<TypeId, nat>)
    requires Reordered(r1, r2) && Acyclic(r1.types, rank) && ClosedEntry(r1, e) && ClosedEntry(r2, e)
    requires PartDistinct(EntryView(r1, names, e, rank))
    ensures ViewMatched(EntryView(r1, names, e, rank), EntryView(r2, names, e, rank))
  {
    hide Acyclic, InterfaceView, FunctionItemView;
    if e.item.InterfaceItem? {
      var a, b := r1.interfaces[e.item.interface], r2.interfaces[e.item.interface];
      assert InterfaceReordered(a, b);
      InterfaceViewPermutes(r1, r2, names, a, b, rank);
      var v1, v2 := EntryView(r1, names, e, rank), EntryView(r2, names, e, rank);
      if v1.Some? {
        InstanceMatched(v1.value[0], v2.value[0]);
      }
    }
  }

  lemma InstanceMatched(a: ItemShape, b: ItemShape)
    requires a.SInstance? && b.SInstance? && a.name == b.name
    requires DistinctKeys(a.items, ShapeName) && multiset(a.items) == multiset(b.items)
    ensures NormalItems([a]) == NormalItems([b])
  {
    hide DistinctKeys;
    PermutedViews(a.items, b.items);
    NormalForgetsOrder(a.items, b.items);
    assert NormalItem(a) == NormalItem(b);
  }

  lemma DistinctInsidePart(parts: seq<Option<seq<ItemShape>>>, i: nat)
    requires i < |parts| && Gather(parts).Some? && DistinctInside(Gather(parts).value)
    ensures PartDistinct(parts[i])
    decreases |parts|
  {
    var last := |parts| - 1;
    var before, p := Gather(parts[..last]).value, parts[last].value;
    if i < last {
      forall k | 0 <= k < |before| && before[k].SInstance? ensures DistinctKeys(before[k].items, ShapeName) {
        assert (before + p)[k] == before[k];
      }
      DistinctInsidePart(parts[..last], i);
    } else {
      forall k | 0 <= k < |p| && p[k].SInstance? ensures DistinctKeys(p[k].items, ShapeName) {
        assert (before + p)[|before| + k] == p[k];
      }
    }
  }

  lemma EntryViewsPermute(res: Resolve, names: Names, a: seq<Entry>, b: seq<Entry>, rank: map<TypeId, nat>)
    requires Acyclic(res.types, rank) && multiset(a) == multiset(b)
    requires ClosedEntries(res, a) && ClosedEntries(res, b)
    ensures ViewMatched(ItemsView(res, names, a, rank), ItemsView(res, names, b, rank))
  {
    hide Acyclic, EntryView, ClosedEntry;
    var f := (e: Entry) =>
      if Acyclic(res.types, rank) && ClosedEntry(res, e) then EntryView(res, names, e, rank) else None;
    MapPermutes(f, a, b);
    var p, q := EntryViews(res, names, a, rank), EntryViews(res, names, b, rank);
    assert Map(f, a) == p && Map(f, b) == q;
    GatherPermutes(p, q);
    if Gather(p).Some? { PermutedViews(Gather(p).value, Gather(q).value); }
  }

  /** Reordered declarations show the same items up to order. */
  lemma ItemsViewReordered(r1: Resolve, r2: Resolve, names: Names, a: seq<Entry>, b: seq<Entry>, rank: map<TypeId, nat>)
    requires Reordered(r1, r2) && Acyclic(r1.types, rank) && multiset(a) == multiset(b)
    requires ClosedEntries(r1, a) && ClosedEntries(r2, b)
    requires ItemsView(r1, names, a, rank).Some? && DistinctInside(ItemsView(r1, names, a, rank).value)
    ensures ViewMatched(ItemsView(r1, names, a, rank), ItemsView(r2, names, b, rank))
  {
    ClosedPermuted(r2, b, a);
    hide Acyclic, EntryView, ClosedEntry;
    EntryViewsPermute(r2, names, a, b, rank);
    var p, q := EntryViews(r1, names, a, rank), EntryViews(r2, names, a, rank);
    forall i | 0 <= i < |a| ensures ViewMatched(p[i], q[i]) {
      DistinctInsidePart(p, i);
      EntryViewMatched(r1, r2, names, a[i], rank);
    }
    GatherViewsMatched(p, q);
  }

  /** The world shows items with distinct names, and no resource is listed under two names. */
  ghost predicate Unambiguous(res: Resolve, w: World, rank: map<TypeId, nat>)
    requires Acyclic(res.types, rank) && ClosedEntries(res, w.imports) && ClosedEntries(res, w.exports)
  {
    var v := WorldView(res, w, rank);
    && v.Some?
    && DistinctKeys(v.value.imports, ShapeName) && DistinctInside(v.value.imports)
    && DistinctKeys(v.value.exports, ShapeName) && DistinctInside(v.value.exports)
    && NamedOnce(Gather(AllListings(res, w.imports)).value + Gather(AllListings(res, w.exports)).value)
  }

  lemma NamesReordered(r1: Resolve, w1: World, r2: Resolve, w2: World)
    requires Reordered(r1, r2) && multiset(w1.imports) == multiset(w2.imports) && multiset(w1.exports) == multiset(w2.exports)
    requires ClosedEntries(r1, w1.imports) && ClosedEntries(r1, w1.exports)
    requires ClosedEntries(r2, w2.imports) && ClosedEntries(r2, w2.exports)
    requires WorldNames(r1, w1).Some?
    requires NamedOnce(Gather(AllListings(r1, w1.imports)).value + Gather(AllListings(r1, w1.exports)).value)
    ensures WorldNames(r2, w2) == WorldNames(r1, w1)
  {
    hide Reordered, ClosedEntries, Gather, AllListings, Listed;
    ListingsOfReordered(r1, r2, w1.imports, w2.imports);
    ListingsOfReordered(r1, r2, w1.exports, w2.exports);
    var i1, e1 := Gather(AllListings(r1, w1.imports)).value, Gather(AllListings(r1, w1.exports)).value;
    var i2, e2 := Gather(AllListings(r2, w2.imports)).value, Gather(AllListings(r2, w2.exports)).value;
    forall x ensures x in i1 + e1 <==> x in i2 + e2 {}
    ListedSame(i1 + e1, i2 + e2);
    ListedAppend(i1, e1, map[]);
    ListedAppend(i2, e2, map[]);
  }

  /** The order of declarations leaves no trace in the canonical document. */
  lemma ReorderingKeepsDocument(r1: Resolve, w1: WorldId, r2: Resolve, w2: WorldId, rank: map<TypeId, nat>)
    requires Resolved(r1, rank) && Resolved(r2, rank) && Reordered(r1, r2) && w1 in r1.worlds && w2 in r2.worlds
    requires multiset(r1.worlds[w1].imports) == multiset(r2.worlds[w2].imports)
    requires multiset(r1.worlds[w1].exports) == multiset(r2.worlds[w2].exports)
    requires Unambiguous(r1, r1.worlds[w1], rank)
    ensures CanonicalDoc(r1, w1, rank) == CanonicalDoc(r2, w2, rank)
  {
    var a, b := r1.worlds[w1], r2.worlds[w2];
    WorldViewReordered(r1, a, r2, b, rank);
    hide WorldView, Normal, ItemsFit, Acyclic, ClosedEntries;
    assert Shown(r1, w1, rank) == WorldView(r1, a, rank);
    assert Shown(r2, w2, rank) == WorldView(r2, b, rank);
    DigestsEqualIff(r1, w1, rank, r2, w2, rank);
  }

  lemma WorldViewReordered(r1: Resolve, a: World, r2: Resolve, b: World, rank: map<TypeId, nat>)
    requires Acyclic(r1.types, rank) && Reordered(r1, r2)
    requires ClosedEntries(r1, a.imports) && ClosedEntries(r1, a.exports)
    requires ClosedEntries(r2, b.imports) && ClosedEntries(r2, b.exports)
    requires multiset(a.imports) == multiset(b.imports) && multiset(a.exports) == multiset(b.exports)
    requires Unambiguous(r1, a, rank)
    ensures WorldView(r2, b, rank).Some?
    ensures Normal(WorldView(r1, a, rank).value) == Normal(WorldView(r2, b, rank).value)
  {
    hide Acyclic, ClosedEntries, Gather, AllListings, ItemsView, WorldNames, DistinctInside, DistinctKeys, NormalItems, Sort, NamedOnce;
    NamesReordered(r1, a, r2, b);
    var names := WorldNames(r1, a).value;
    ItemsViewReordered(r1, r2, names, a.imports, b.imports, rank);
    ItemsViewReordered(r1, r2, names, a.exports, b.exports, rank);
    NormalForgetsOrder(WorldView(r1, a, rank).value.imports, WorldView(r2, b, rank).value.imports);
    NormalForgetsOrder(WorldView(r1, a, rank).value.exports, WorldView(r2, b, rank).value.exports);
  }
}
