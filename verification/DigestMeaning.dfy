/** Which worlds share a canonical document: exactly those that show the same items, up to the order
  * in which differently named ones are declared.
  */
module DigestMeaning {
  import opened Prelude
  import opened StableSort
  import opened CanonicalJson
  import opened TypeTable
  import opened TypeShapes
  import opened WorldDigest

  function ShapeName(item: ItemShape): string {
    item.name
  }

  lemma OrderedSortsToItself<T(!new)>(s: seq<T>, key: T -> string)
    requires Ordered(s, key)
    ensures Sort(s, key) == s
  {
    SortIsStable(s, key);
    OrderedUnique(Sort(s, key), s, key);
  }

  // ---- items in normal order -------------------------------------------------------------------

  /** The item with the items inside it sorted by name. */
  function NormalItem(item: ItemShape): ItemShape
    decreases item
  {
    match item
    case SInstance(name, items) => SInstance(name, Sort(NormalItems(items), ShapeName))
    case _ => item
  }

  function NormalItems(items: seq<ItemShape>): (r: seq<ItemShape>)
    ensures |r| == |items| && forall i :: 0 <= i < |items| ==> r[i] == NormalItem(items[i])
    decreases items
  {
    if items == [] then [] else [NormalItem(items[0])] + NormalItems(items[1..])
  }

  function Normal(v: WorldShape): WorldShape {
    WorldShape(Sort(NormalItems(v.imports), ShapeName), Sort(NormalItems(v.exports), ShapeName))
  }

  ghost predicate IsNormal(item: ItemShape)
    decreases item
  {
    item.SInstance? ==> AreNormal(item.items)
  }

  ghost predicate AreNormal(items: seq<ItemShape>)
    decreases items
  {
    Ordered(items, ShapeName) && forall i :: 0 <= i < |items| ==> IsNormal(items[i])
  }

  lemma SortedMembers<T>(s: seq<T>, key: T -> string, x: T)
    ensures x in Sort(s, key) <==> x in s
  {
    SortPermutes(s, key);
    assert x in Sort(s, key) <==> x in multiset(Sort(s, key));
    assert x in s <==> x in multiset(s);
  }

  lemma {:induction false} NormalItemIsNormal(item: ItemShape)
    requires ItemFits(item)
    ensures IsNormal(NormalItem(item)) && ItemFits(NormalItem(item)) && NormalItem(item).name == item.name
    decreases item
  {
    if item.SInstance? { NormalItemsAreNormal(item.items); }
  }

  lemma {:induction false} NormalItemsAreNormal(items: seq<ItemShape>)
    requires ItemsFit(items)
    ensures AreNormal(Sort(NormalItems(items), ShapeName)) && ItemsFit(NormalItems(items))
    ensures ItemsFit(Sort(NormalItems(items), ShapeName))
    decreases items
  {
    var normal := NormalItems(items);
    SortIsStable(normal, ShapeName);
    forall i | 0 <= i < |items| ensures IsNormal(normal[i]) && ItemFits(normal[i]) {
      NormalItemIsNormal(items[i]);
    }
    var sorted := Sort(normal, ShapeName);
    forall i | 0 <= i < |sorted| ensures IsNormal(sorted[i]) && ItemFits(sorted[i]) {
      SortedMembers(normal, ShapeName, sorted[i]);
      assert sorted[i] in normal;
    }
  }

  // ---- the document of an item depends on its normal form --------------------------------------

  ghost function TotalItemJson(item: ItemShape): Json {
    if ItemFits(item) then ItemJson(item) else JNull
  }

  lemma FindCons(m: Member, rest: seq<Member>, k: string)
    ensures Find([m] + rest, k) == if m.key == k then Some(m.value) else Find(rest, k)
  {
    assert ([m] + rest)[1..] == rest;
  }

  lemma FindInItemDoc(kind: string, name: string, rest: seq<Member>, k: string)
    ensures Get(ItemDoc(kind, name, rest), "kind") == Some(JStr(kind))
    ensures Get(ItemDoc(kind, name, rest), "name") == Some(JStr(name))
    ensures k != "kind" && k != "name" ==> Get(ItemDoc(kind, name, rest), k) == Find(rest, k)
  {
    hide Find, Get, Tagged;
    assert "kind"[0] != "name"[0];
    var m := Member("name", JStr(name));
    TaggedFind(kind, [m] + rest, "name");
    TaggedFind(kind, [m] + rest, k);
    FindCons(m, rest, "name");
    FindCons(m, rest, k);
  }

  /** The members of an item's document after its kind and name. */
  ghost function Body(item: ItemShape): seq<Member>
    requires ItemFits(item)
  {
    match item
    case SFunc(_, f) => [Member("func", FunctionJson(f))]
    case SInstance(_, items) => [Member("items", JArr(SortByName(ItemsJson(items))))]
    case SResource(_) => []
  }

  function ItemKind(item: ItemShape): string {
    match item
    case SFunc(_, _) => "func"
    case SInstance(_, _) => "instance"
    case SResource(_) => "resource"
  }

  lemma ItemJsonIs(item: ItemShape)
    requires ItemFits(item)
    ensures ItemJson(item) == ItemDoc(ItemKind(item), item.name, Body(item))
  {}

  lemma NameOfItemJson(item: ItemShape)
    requires ItemFits(item)
    ensures NameOf(ItemJson(item)) == item.name
  {
    ItemJsonIs(item);
    hide ItemJson, ItemDoc;
    FindInItemDoc(ItemKind(item), item.name, Body(item), "");
  }

  lemma ItemsJsonIsMap(items: seq<ItemShape>)
    requires ItemsFit(items)
    ensures ItemsJson(items) == Map(TotalItemJson, items)
  {}

  /** Sorting the documents is sorting the items. */
  lemma SortedItemsJson(items: seq<ItemShape>)
    requires ItemsFit(items)
    ensures ItemsFit(Sort(items, ShapeName))
    ensures SortByName(ItemsJson(items)) == ItemsJson(Sort(items, ShapeName))
  {
    hide ItemJson, ItemFits, ItemsJson, NameOf;
    var sorted := Sort(items, ShapeName);
    forall i | 0 <= i < |sorted| ensures ItemFits(sorted[i]) {
      SortedMembers(items, ShapeName, sorted[i]);
      assert sorted[i] in items;
    }
    ItemsJsonIsMap(items);
    ItemsJsonIsMap(sorted);
    forall x | x in items ensures NameOf(TotalItemJson(x)) == ShapeName(x) {
      NameOfItemJson(x);
    }
    SortMap(TotalItemJson, items, ShapeName, NameOf);
  }

  lemma {:induction false} ItemJsonOfNormal(item: ItemShape)
    requires ItemFits(item)
    ensures ItemFits(NormalItem(item)) && ItemJson(NormalItem(item)) == ItemJson(item)
    decreases item
  {
    if item.SInstance? {
      ItemsJsonOfNormal(item.items);
    }
  }

  lemma {:induction false} ItemsJsonOfNormal(items: seq<ItemShape>)
    requires ItemsFit(items)
    ensures var sorted := Sort(NormalItems(items), ShapeName);
      && ItemsFit(sorted) && SortByName(ItemsJson(sorted)) == SortByName(ItemsJson(items)) == ItemsJson(sorted)
    decreases items
  {
    var normal := NormalItems(items);
    forall i | 0 <= i < |items| ensures ItemFits(normal[i]) && ItemJson(normal[i]) == ItemJson(items[i]) {
      ItemJsonOfNormal(items[i]);
    }
    hide ItemJson, ItemFits, NormalItem;
    assert ItemsJson(normal) == ItemsJson(items);
    SortedItemsJson(normal);
    SortedItemsJson(Sort(normal, ShapeName));
    SortIdempotent(normal, ShapeName);
  }

  // ---- the document determines the normal form -------------------------------------------------

  ghost predicate ItemDocsAlike(a: ItemShape, b: ItemShape) {
    ItemFits(a) && ItemFits(b) && SortKeys(ItemJson(a)) == SortKeys(ItemJson(b))
  }

  lemma ItemFound(item: ItemShape, k: string)
    requires ItemFits(item)
    ensures Get(SortKeys(ItemJson(item)), "kind") == Some(JStr(ItemKind(item)))
    ensures Get(SortKeys(ItemJson(item)), "name") == Some(JStr(item.name))
    ensures k != "kind" && k != "name" ==> Get(SortKeys(ItemJson(item)), k) == SortFound(Find(Body(item), k))
  {
    ItemJsonIs(item);
    hide ItemJson, ItemDoc, Get, Find, Body, ItemKind, ItemFits;
    FindInItemDoc(ItemKind(item), item.name, Body(item), k);
    GetSorted(ItemJson(item), "kind");
    GetSorted(ItemJson(item), "name");
    GetSorted(ItemJson(item), k);
  }

  lemma SameItem(a: ItemShape, b: ItemShape, k: string)
    requires ItemDocsAlike(a, b)
    ensures a.SFunc? == b.SFunc? && a.SInstance? == b.SInstance? && a.name == b.name
    ensures k != "kind" && k != "name" ==> SortFound(Find(Body(a), k)) == SortFound(Find(Body(b), k))
  {
    ItemFound(a, k);
    ItemFound(b, k);
    hide ItemJson, ItemFits, Body, SortKeys, Get, Find, SortFound;
    assert |"func"| < |"instance"| && |"func"| < |"resource"|;
    assert "instance"[0] != "resource"[0];
  }

  lemma ArraysAlike(k1: string, a: seq<Json>, b: seq<Json>)
    requires SortFound(Find([Member(k1, JArr(a))], k1)) == SortFound(Find([Member(k1, JArr(b))], k1))
    ensures SortElems(a) == SortElems(b)
  {}

  /** Looking up a three-member object. */
  lemma FindInThree(m1: Member, m2: Member, m3: Member, k: string)
    ensures Find([m1, m2, m3], k)
         == if m1.key == k then Some(m1.value) else if m2.key == k then Some(m2.value)
            else if m3.key == k then Some(m3.value) else None
  {
    assert [m1, m2, m3] == [m1] + ([m2] + ([m3] + []));
    FindCons(m1, [m2] + ([m3] + []), k);
    FindCons(m2, [m3] + [], k);
    FindCons(m3, [], k);
  }

  lemma SortedScalar(elems: seq<Json>, b: bool)
    ensures SortKeys(JArr(elems)) == JArr(SortElems(elems))
    ensures SortKeys(JBool(b)) == JBool(b)
  {}

  lemma FunctionDocFind(params: seq<Json>, results: seq<Json>, isAsync: bool)
    ensures Get(SortKeys(FunctionDoc(params, results, isAsync)), "params") == Some(JArr(SortElems(params)))
    ensures Get(SortKeys(FunctionDoc(params, results, isAsync)), "results") == Some(JArr(SortElems(results)))
    ensures Get(SortKeys(FunctionDoc(params, results, isAsync)), "async") == Some(JBool(isAsync))
  {
    hide SortKeys, Find;
    var d := FunctionDoc(params, results, isAsync);
    var m1, m2, m3 := Member("params", JArr(params)), Member("results", JArr(results)), Member("async", JBool(isAsync));
    assert "params"[0] != "results"[0] && "params"[0] != "async"[0] && "results"[0] != "async"[0];
    GetSorted(d, "params");
    GetSorted(d, "results");
    GetSorted(d, "async");
    FindInThree(m1, m2, m3, "params");
    FindInThree(m1, m2, m3, "results");
    FindInThree(m1, m2, m3, "async");
    SortedScalar(params, isAsync);
    SortedScalar(results, isAsync);
  }

  lemma ShapesInjective(a: seq<Shape>, b: seq<Shape>)
    requires forall i :: 0 <= i < |a| ==> Fits(a[i])
    requires forall i :: 0 <= i < |b| ==> Fits(b[i])
    requires SortElems(EncodeAll(a)) == SortElems(EncodeAll(b))
    ensures a == b
  {
    AllAlike(a, b);
    forall i | 0 <= i < |a| ensures a[i] == b[i] {
      EncodeInjective(a[i], b[i]);
    }
  }

  lemma FunctionInjective(a: FunctionShape, b: FunctionShape)
    requires FunctionFits(a) && FunctionFits(b) && SortKeys(FunctionJson(a)) == SortKeys(FunctionJson(b))
    ensures a == b
  {
    FunctionDocFind(EncodeAll(a.params), EncodeAll(a.results), a.isAsync);
    FunctionDocFind(EncodeAll(b.params), EncodeAll(b.results), b.isAsync);
    hide FunctionDoc, SortKeys, Get;
    ShapesInjective(a.params, b.params);
    ShapesInjective(a.results, b.results);
  }

  lemma FunctionItemsAlike(a: ItemShape, b: ItemShape)
    requires ItemDocsAlike(a, b) && a.SFunc?
    ensures a == b
  {
    SameItem(a, b, "func");
    hide FunctionJson;
    assert "func"[0] != "kind"[0] && "func"[0] != "name"[0];
    assert Find(Body(a), "func") == Some(FunctionJson(a.func));
    assert Find(Body(b), "func") == Some(FunctionJson(b.func));
    FunctionInjective(a.func, b.func);
  }

  lemma InstancesAlike(a: ItemShape, b: ItemShape)
    requires ItemDocsAlike(a, b) && a.SInstance?
    ensures b.SInstance? && a.name == b.name && ItemsFit(a.items) && ItemsFit(b.items)
    ensures SortElems(SortByName(ItemsJson(a.items))) == SortElems(SortByName(ItemsJson(b.items)))
  {
    SameItem(a, b, "items");
    hide ItemsJson, SortByName;
    assert "items"[0] != "kind"[0] && "items"[0] != "name"[0];
    ArraysAlike("items", SortByName(ItemsJson(a.items)), SortByName(ItemsJson(b.items)));
  }

  lemma {:induction false} NormalInjective(a: ItemShape, b: ItemShape)
    requires ItemDocsAlike(a, b) && IsNormal(a) && IsNormal(b)
    ensures a == b
    decreases a
  {
    hide ItemDocsAlike;
    match a
    case SFunc(_, _) => FunctionItemsAlike(a, b);
    case SInstance(_, items) =>
      InstancesAlike(a, b);
      SortedItemsJson(items);
      SortedItemsJson(b.items);
      OrderedSortsToItself(items, ShapeName);
      OrderedSortsToItself(b.items, ShapeName);
      NormalItemsInjective(items, b.items);
    case SResource(_) => SameItem(a, b, "");
  }

  lemma {:induction false} NormalItemsInjective(a: seq<ItemShape>, b: seq<ItemShape>)
    requires ItemsFit(a) && ItemsFit(b) && SortElems(ItemsJson(a)) == SortElems(ItemsJson(b))
    requires (forall i :: 0 <= i < |a| ==> IsNormal(a[i])) && (forall i :: 0 <= i < |b| ==> IsNormal(b[i]))
    ensures a == b
    decreases a
  {
    assert |a| == |SortElems(ItemsJson(a))| == |SortElems(ItemsJson(b))| == |b|;
    forall i | 0 <= i < |a| ensures a[i] == b[i] {
      assert SortElems(ItemsJson(a))[i] == SortElems(ItemsJson(b))[i];
      NormalInjective(a[i], b[i]);
    }
  }

  // ---- whole worlds ----------------------------------------------------------------------------

  lemma SortedNumber(n: nat)
    ensures SortKeys(JNum(n)) == JNum(n)
  {}

  lemma WorldDocFind(imports: seq<Json>, exports: seq<Json>)
    ensures Get(SortKeys(WorldDoc(imports, exports)), "imports") == Some(JArr(SortElems(SortByName(imports))))
    ensures Get(SortKeys(WorldDoc(imports, exports)), "exports") == Some(JArr(SortElems(SortByName(exports))))
    ensures Get(SortKeys(WorldDoc(imports, exports)), "cewd") == Some(JNum(1))
  {
    hide SortKeys, Find, SortByName;
    var d := WorldDoc(imports, exports);
    var i, e := SortByName(imports), SortByName(exports);
    var m1, m2, m3 := Member("cewd", JNum(CEWD_VERSION)), Member("imports", JArr(i)), Member("exports", JArr(e));
    assert "cewd"[0] != "imports"[0] && "cewd"[0] != "exports"[0] && "imports"[0] != "exports"[0];
    GetSorted(d, "imports");
    GetSorted(d, "exports");
    GetSorted(d, "cewd");
    FindInThree(m1, m2, m3, "cewd");
    SortedNumber(CEWD_VERSION);
    FindInThree(m1, m2, m3, "imports");
    FindInThree(m1, m2, m3, "exports");
    SortedScalar(i, true);
    SortedScalar(e, true);
  }

  lemma WorldDocsEqualIff(a: WorldShape, b: WorldShape)
    requires ItemsFit(a.imports) && ItemsFit(a.exports) && ItemsFit(b.imports) && ItemsFit(b.exports)
    ensures SortKeys(WorldJson(a)) == SortKeys(WorldJson(b)) <==> Normal(a) == Normal(b)
  {
    hide SortKeys, Get, ItemsJson, SortByName, NormalItems, Sort, SortElems, ItemsFit, AreNormal;
    ItemsJsonOfNormal(a.imports);
    ItemsJsonOfNormal(a.exports);
    ItemsJsonOfNormal(b.imports);
    ItemsJsonOfNormal(b.exports);
    if SortKeys(WorldJson(a)) == SortKeys(WorldJson(b)) {
      WorldDocFind(ItemsJson(a.imports), ItemsJson(a.exports));
      WorldDocFind(ItemsJson(b.imports), ItemsJson(b.exports));
      SortedListsInjective(a.imports, b.imports);
      SortedListsInjective(a.exports, b.exports);
    }
  }

  lemma SortedListsInjective(a: seq<ItemShape>, b: seq<ItemShape>)
    requires ItemsFit(a) && ItemsFit(b)
    requires SortElems(SortByName(ItemsJson(a))) == SortElems(SortByName(ItemsJson(b)))
    ensures Sort(NormalItems(a), ShapeName) == Sort(NormalItems(b), ShapeName)
  {
    ItemsJsonOfNormal(a);
    ItemsJsonOfNormal(b);
    NormalItemsAreNormal(a);
    NormalItemsAreNormal(b);
    NormalItemsInjective(Sort(NormalItems(a), ShapeName), Sort(NormalItems(b), ShapeName));
  }

  /** Two worlds have the same canonical document exactly when they show the same items: the same
    * names with the same shapes, whatever the ids, the aliases, the parameter names and the order in
    * which differently named items are declared. */
  lemma DigestsEqualIff(
    r1: Resolve, w1: WorldId, rank1: map<TypeId, nat>, r2: Resolve, w2: WorldId, rank2: map<TypeId, nat>)
    requires Resolved(r1, rank1) && Resolved(r2, rank2)
    requires Shown(r1, w1, rank1).Some? && Shown(r2, w2, rank2).Some?
    ensures CanonicalDoc(r1, w1, rank1) == CanonicalDoc(r2, w2, rank2)
       <==> Normal(Shown(r1, w1, rank1).value) == Normal(Shown(r2, w2, rank2).value)
  {
    hide Resolved, Shown, WorldJson, Normal, SortKeys;
    WorldDocsEqualIff(Shown(r1, w1, rank1).value, Shown(r2, w2, rank2).value);
  }

  /** For differently named items, the normal form forgets the order and nothing else. */
  lemma NormalForgetsOrder(a: seq<ItemShape>, b: seq<ItemShape>)
    requires DistinctKeys(a, ShapeName)
    ensures Sort(NormalItems(a), ShapeName) == Sort(NormalItems(b), ShapeName)
       <==> multiset(NormalItems(a)) == multiset(NormalItems(b))
  {
    var n := NormalItems(a);
    forall i, j | 0 <= i < j < |n| ensures ShapeName(n[i]) != ShapeName(n[j]) {
      assert ShapeName(a[i]) != ShapeName(a[j]);
    }
    DistinctSortedAlikeIff(n, NormalItems(b), ShapeName);
  }
}
