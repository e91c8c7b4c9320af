/** JSON documents and crates/bindgen/src/digest.rs: sort_keys.
  *
  * An object lists its members in the order in which they were inserted; serde_json keeps either
  * that order or its own, depending on a build feature, which is what sort_keys levels out.
  */
module CanonicalJson {
  import opened Prelude
  import opened StableSort

  datatype Json =
    | JNull | JBool(b: bool) | JNum(n: nat) | JStr(s: string)
    | JArr(elems: seq<Json>) | JObj(members: seq<Member>)

  datatype Member = Member(key: string, value: Json)

  function KeyOf(m: Member): string {
    m.key
  }

  /** The value of the first member with key k. */
  function Find(members: seq<Member>, k: string): (r: Option<Json>)
    ensures r.Some? ==> exists i :: 0 <= i < |members| && members[i] == Member(k, r.value)
  {
    if members == [] then None
    else if members[0].key == k then Some(members[0].value)
    else
      var r := Find(members[1..], k);
      assert r.Some? ==> exists i :: 0 <= i < |members[1..]| && members[1..][i] == Member(k, r.value);
      r
  }

  function Get(j: Json, k: string): Option<Json> {
    if j.JObj? then Find(j.members, k) else None
  }

  // ---- sort_keys -------------------------------------------------------------------------------

  function SortKeys(j: Json): Json
    decreases j
  {
    match j
    case JArr(elems) => JArr(SortElems(elems))
    case JObj(members) => JObj(Sort(SortMembers(members), KeyOf))
    case _ => j
  }

  function SortElems(elems: seq<Json>): (r: seq<Json>)
    ensures |r| == |elems|
    ensures forall i :: 0 <= i < |elems| ==> r[i] == SortKeys(elems[i])
    decreases elems
  {
    if elems == [] then [] else [SortKeys(elems[0])] + SortElems(elems[1..])
  }

  function SortMembers(members: seq<Member>): (r: seq<Member>)
    ensures |r| == |members|
    ensures forall i :: 0 <= i < |members| ==> r[i] == Member(members[i].key, SortKeys(members[i].value))
    decreases members
  {
    if members == [] then []
    else [Member(members[0].key, SortKeys(members[0].value))] + SortMembers(members[1..])
  }

  function SortFound(v: Option<Json>): Option<Json> {
    if v.Some? then Some(SortKeys(v.value)) else None
  }

  lemma {:induction false} FindIsFirstNamed(members: seq<Member>, k: string)
    ensures Find(members, k)
         == var named := Named(members, KeyOf, k); if named == [] then None else Some(named[0].value)
  {
    if members != [] { FindIsFirstNamed(members[1..], k); }
  }

  lemma {:induction false} FindInSortedValues(members: seq<Member>, k: string)
    ensures Find(SortMembers(members), k) == SortFound(Find(members, k))
  {
    if members != [] {
      FindInSortedValues(members[1..], k);
      assert SortMembers(members)[1..] == SortMembers(members[1..]);
    }
  }

  /** Looking a key up in the sorted document gives the sorted form of what it had. */
  lemma GetSorted(j: Json, k: string)
    ensures Get(SortKeys(j), k) == SortFound(Get(j, k))
  {
    if j.JObj? {
      var values := SortMembers(j.members);
      FindIsFirstNamed(values, k);
      FindIsFirstNamed(Sort(values, KeyOf), k);
      SortIsStable(values, KeyOf);
      assert Named(Sort(values, KeyOf), KeyOf, k) == Named(values, KeyOf, k);
      FindInSortedValues(j.members, k);
    }
  }

  /** Every object in the document has pairwise distinct keys. */
  ghost predicate Proper(j: Json)
    decreases j
  {
    match j
    case JArr(elems) => forall i :: 0 <= i < |elems| ==> Proper(elems[i])
    case JObj(members) =>
      && DistinctKeys(members, KeyOf)
      && forall i :: 0 <= i < |members| ==> Proper(members[i].value)
    case _ => true
  }

  /** The same document except for the order of the members of its objects, at any depth. */
  ghost predicate SameButKeyOrder(a: Json, b: Json)
    decreases a
  {
    match a
    case JArr(elems) =>
      b.JArr? && |elems| == |b.elems|
      && forall i :: 0 <= i < |elems| ==> SameButKeyOrder(elems[i], b.elems[i])
    case JObj(members) =>
      b.JObj? && |members| == |b.members|
      && forall i :: 0 <= i < |members| ==>
           var there := Find(b.members, members[i].key);
           there.Some? && SameButKeyOrder(members[i].value, there.value)
    case _ => a == b
  }

  lemma {:induction false} FindOfDistinct(members: seq<Member>, i: nat)
    requires i < |members| && DistinctKeys(members, KeyOf)
    ensures Find(members, members[i].key) == Some(members[i].value)
  {
    if i > 0 {
      assert KeyOf(members[0]) != KeyOf(members[i]);
      FindOfDistinct(members[1..], i - 1);
    }
  }

  lemma DistinctAfterValues(members: seq<Member>)
    requires DistinctKeys(members, KeyOf)
    ensures DistinctKeys(SortMembers(members), KeyOf)
  {
    var r := SortMembers(members);
    forall i, j | 0 <= i < j < |r| ensures KeyOf(r[i]) != KeyOf(r[j]) {
      assert KeyOf(members[i]) != KeyOf(members[j]);
    }
  }

  lemma {:induction false} SortedAlikeMeansSame(a: Json, b: Json)
    requires Proper(a) && Proper(b) && SortKeys(a) == SortKeys(b)
    ensures SameButKeyOrder(a, b)
    decreases a
  {
    match a
    case JArr(elems) =>
      forall i | 0 <= i < |elems| ensures SameButKeyOrder(elems[i], b.elems[i]) {
        assert SortElems(elems)[i] == SortElems(b.elems)[i];
        SortedAlikeMeansSame(elems[i], b.elems[i]);
      }
    case JObj(members) =>
      SortPermutes(SortMembers(members), KeyOf);
      SortPermutes(SortMembers(b.members), KeyOf);
      forall i | 0 <= i < |members|
        ensures Find(b.members, members[i].key).Some?
        ensures SameButKeyOrder(members[i].value, Find(b.members, members[i].key).value)
      {
        FindOfDistinct(members, i);
        GetSorted(a, members[i].key);
        GetSorted(b, members[i].key);
        SortedAlikeMeansSame(members[i].value, Find(b.members, members[i].key).value);
      }
    case _ =>
  }

  /** Distinct keys, all of them present in an equally long list of distinct keys: no key of the
    * other list is missing. */
  lemma NoKeyMissing(a: seq<Member>, b: seq<Member>, k: string)
    requires DistinctKeys(a, KeyOf) && DistinctKeys(b, KeyOf) && |a| == |b|
    requires forall i :: 0 <= i < |a| ==> Find(b, a[i].key).Some?
    requires Find(b, k).Some?
    ensures Find(a, k).Some?
  {
    var ka := Keys(a);
    var kb := Keys(b);
    KeysCount(a);
    KeysCount(b);
    forall x | x in ka ensures x in kb {
      var i :| 0 <= i < |a| && a[i].key == x;
    }
    if k !in ka {
      SubsetCount(ka, kb - {k});
    } else {
      var i :| 0 <= i < |a| && a[i].key == k;
      FindOfDistinct(a, i);
    }
  }

  ghost function Keys(members: seq<Member>): set<string> {
    set i | 0 <= i < |members| :: members[i].key
  }

  lemma {:induction false} KeysCount(members: seq<Member>)
    requires DistinctKeys(members, KeyOf)
    ensures |Keys(members)| == |members|
  {
    if members == [] {
      assert Keys(members) == {};
    } else {
      KeysCount(members[1..]);
      assert Keys(members) == {members[0].key} + Keys(members[1..]) by {
        forall x | x in Keys(members) ensures x in {members[0].key} + Keys(members[1..]) {
          var i :| 0 <= i < |members| && members[i].key == x;
          if i > 0 { assert members[1..][i - 1].key == x; }
        }
      }
      forall x | x in Keys(members[1..]) ensures x != members[0].key {
        var i :| 0 < i < |members| && members[i].key == x;
        assert KeyOf(members[0]) != KeyOf(members[i]);
      }
    }
  }

  lemma {:induction false} SameMeansSortedAlike(a: Json, b: Json)
    requires Proper(a) && Proper(b) && SameButKeyOrder(a, b)
    ensures SortKeys(a) == SortKeys(b)
    decreases a
  {
    match a
    case JArr(elems) =>
      forall i | 0 <= i < |elems| ensures SortElems(elems)[i] == SortElems(b.elems)[i] {
        SameMeansSortedAlike(elems[i], b.elems[i]);
      }
      assert SortElems(elems) == SortElems(b.elems);
    case JObj(members) =>
      forall k ensures SortFound(Find(members, k)) == SortFound(Find(b.members, k)) {
        if Find(members, k).Some? {
          var i :| 0 <= i < |members| && members[i] == Member(k, Find(members, k).value);
          var there := Find(b.members, members[i].key);
          var j :| 0 <= j < |b.members| && b.members[j] == Member(k, there.value);
          SameMeansSortedAlike(members[i].value, there.value);
        } else if Find(b.members, k).Some? {
          NoKeyMissing(members, b.members, k);
        }
      }
      MembersSortAlike(members, b.members);
    case _ =>
  }

  lemma MembersSortAlike(a: seq<Member>, b: seq<Member>)
    requires DistinctKeys(a, KeyOf) && DistinctKeys(b, KeyOf)
    requires forall k :: SortFound(Find(a, k)) == SortFound(Find(b, k))
    ensures Sort(SortMembers(a), KeyOf) == Sort(SortMembers(b), KeyOf)
  {
    DistinctAfterValues(a);
    DistinctAfterValues(b);
    forall k ensures Named(SortMembers(a), KeyOf, k) == Named(SortMembers(b), KeyOf, k) {
      assert SortFound(Find(a, k)) == SortFound(Find(b, k));
      OnlyNamed(SortMembers(a), k);
      OnlyNamed(SortMembers(b), k);
      FindInSortedValues(a, k);
      FindInSortedValues(b, k);
    }
    SortedAlikeIff(SortMembers(a), SortMembers(b), KeyOf);
  }

  lemma OnlyNamed(members: seq<Member>, k: string)
    requires DistinctKeys(members, KeyOf)
    ensures Named(members, KeyOf, k)
         == var there := Find(members, k); if there.None? then [] else [Member(k, there.value)]
  {
    FindIsFirstNamed(members, k);
    NamedOfDistinct(members, KeyOf, k);
    NamedHasKey(members, KeyOf, k);
    if Named(members, KeyOf, k) != [] {
      assert Named(members, KeyOf, k)[0] in Named(members, KeyOf, k);
    }
  }

  /** sort_keys erases the order of object members and nothing else. */
  lemma SortKeysErasesOnlyKeyOrder(a: Json, b: Json)
    requires Proper(a) && Proper(b)
    ensures SortKeys(a) == SortKeys(b) <==> SameButKeyOrder(a, b)
  {
    if SortKeys(a) == SortKeys(b) { SortedAlikeMeansSame(a, b); }
    if SameButKeyOrder(a, b) { SameMeansSortedAlike(a, b); }
  }

  lemma {:induction false} SortKeysIdempotent(j: Json)
    ensures SortKeys(SortKeys(j)) == SortKeys(j)
    decreases j
  {
    match j
    case JArr(elems) =>
      forall i | 0 <= i < |elems| ensures SortElems(SortElems(elems))[i] == SortElems(elems)[i] {
        SortKeysIdempotent(elems[i]);
      }
      assert SortElems(SortElems(elems)) == SortElems(elems);
    case JObj(members) =>
      var values := SortMembers(members);
      forall i | 0 <= i < |members| ensures SortMembers(values)[i] == values[i] {
        SortKeysIdempotent(members[i].value);
      }
      SortPermutes(values, KeyOf);
      var sorted := Sort(values, KeyOf);
      forall i | 0 <= i < |sorted| ensures SortMembers(sorted)[i] == sorted[i] {
        assert sorted[i] in multiset(sorted);
        assert sorted[i] in values;
      }
      assert SortMembers(sorted) == sorted;
      SortIdempotent(values, KeyOf);
    case _ =>
  }
}
