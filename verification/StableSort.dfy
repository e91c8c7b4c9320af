/** The stable sort by a string key that crates/bindgen/src/digest.rs relies on, for items by name and
  * for object members by key.  The library routine is replaced by insertion; stable sorting has
  * only one result (OrderedUnique), so how it is computed does not matter.
  */
module StableSort {
  /** Lexicographic order on strings. */
  predicate Leq(a: string, b: string) {
    a == [] || (b != [] && (a[0] < b[0] || (a[0] == b[0] && Leq(a[1..], b[1..]))))
  }

  lemma {:induction false} LeqTotal(a: string, b: string)
    ensures Leq(a, b) || Leq(b, a)
  {
    if a != [] && b != [] { LeqTotal(a[1..], b[1..]); }
  }

  /** a is below b at k: they agree before, and there a ends or has the smaller character. */
  predicate BelowAt(a: string, b: string, k: nat) {
    && k <= |a| && k < |b| && (forall i :: 0 <= i < k ==> a[i] == b[i])
    && (k == |a| || a[k] < b[k])
  }

  /** The order is that of a dictionary. */
  lemma {:induction false} LeqIsLexical(a: string, b: string)
    ensures Leq(a, b) <==> a == b || exists k: nat :: BelowAt(a, b, k)
  {
    if a == "" {
      if b != "" { assert BelowAt(a, b, 0); }
    } else if b != "" {
      if a[0] < b[0] {
        assert BelowAt(a, b, 0);
      } else if a[0] == b[0] {
        var c, d := a[1..], b[1..];
        LeqIsLexical(c, d);
        assert a == [a[0]] + c && b == [b[0]] + d;
        if k: nat :| BelowAt(c, d, k) {
          forall i | 0 <= i < k + 1 ensures a[i] == b[i] { if i > 0 { assert c[i - 1] == d[i - 1]; } }
          assert BelowAt(a, b, k + 1);
        }
        if k: nat :| BelowAt(a, b, k) { assert BelowAt(c, d, k - 1); }
      }
    }
  }

  lemma LeqReflexive(a: string)
    ensures Leq(a, a)
  {
    LeqTotal(a, a);
  }

  lemma {:induction false} LeqAntisymmetric(a: string, b: string)
    requires Leq(a, b) && Leq(b, a)
    ensures a == b
  {
    if a != [] {
      LeqAntisymmetric(a[1..], b[1..]);
      assert a == [a[0]] + a[1..] && b == [b[0]] + b[1..];
    }
  }

  lemma {:induction false} LeqTransitive(a: string, b: string, c: string)
    requires Leq(a, b) && Leq(b, c)
    ensures Leq(a, c)
  {
    if a != [] && a[0] == b[0] && b[0] == c[0] {
      LeqTransitive(a[1..], b[1..], c[1..]);
    }
  }

  function Insert<T>(x: T, s: seq<T>, key: T -> string): seq<T> {
    if s == [] then [x]
    else if Leq(key(x), key(s[0])) then [x] + s
    else [s[0]] + Insert(x, s[1..], key)
  }

  function Sort<T>(s: seq<T>, key: T -> string): (r: seq<T>)
    ensures |r| == 0 <==> |s| == 0
  {
    if s == [] then [] else Insert(s[0], Sort(s[1..], key), key)
  }

  /** No element has a key below the key of an earlier one. */
  ghost predicate Ordered<T>(s: seq<T>, key: T -> string) {
    s != [] ==> Floor(key(s[0]), s[1..], key) && Ordered(s[1..], key)
  }

  ghost predicate Floor<T>(k: string, s: seq<T>, key: T -> string) {
    forall x :: x in s ==> Leq(k, key(x))
  }

  /** The elements with key k, in order. */
  function Named<T>(s: seq<T>, key: T -> string, k: string): seq<T> {
    if s == [] then []
    else (if key(s[0]) == k then [s[0]] else []) + Named(s[1..], key, k)
  }

  ghost predicate SameNamed<T(!new)>(a: seq<T>, b: seq<T>, key: T -> string) {
    forall k :: Named(a, key, k) == Named(b, key, k)
  }

  lemma {:induction false} InsertMembers<T>(x: T, s: seq<T>, key: T -> string, y: T)
    ensures y in Insert(x, s, key) <==> y == x || y in s
  {
    if s != [] {
      InsertMembers(x, s[1..], key, y);
      assert y in s <==> y == s[0] || y in s[1..];
    }
  }

  lemma FloorOfFirst<T>(k: string, s: seq<T>, key: T -> string)
    requires s != [] && Ordered(s, key) && Leq(k, key(s[0]))
    ensures Floor(k, s, key)
  {
    forall y | y in s ensures Leq(k, key(y)) {
      if y != s[0] {
        assert y in s[1..];
        LeqTransitive(k, key(s[0]), key(y));
      }
    }
  }

  lemma {:induction false} InsertOrdered<T>(x: T, s: seq<T>, key: T -> string)
    requires Ordered(s, key)
    ensures Ordered(Insert(x, s, key), key)
  {
    if s != [] {
      if Leq(key(x), key(s[0])) {
        FloorOfFirst(key(x), s, key);
        assert ([x] + s)[1..] == s;
      } else {
        var rest := Insert(x, s[1..], key);
        InsertOrdered(x, s[1..], key);
        LeqTotal(key(x), key(s[0]));
        forall y | y in rest ensures Leq(key(s[0]), key(y)) {
          InsertMembers(x, s[1..], key, y);
        }
        assert ([s[0]] + rest)[1..] == rest;
      }
    }
  }

  lemma NamedCons<T>(x: T, s: seq<T>, key: T -> string, k: string)
    ensures Named([x] + s, key, k) == (if key(x) == k then [x] else []) + Named(s, key, k)
  {
    assert ([x] + s)[1..] == s;
  }

  lemma {:induction false} InsertNamed<T>(x: T, s: seq<T>, key: T -> string, k: string)
    ensures Named(Insert(x, s, key), key, k) == (if key(x) == k then [x] else []) + Named(s, key, k)
  {
    if s == [] || Leq(key(x), key(s[0])) {
      NamedCons(x, s, key, k);
      assert s == [] ==> [x] + s == [x];
    } else {
      hide Leq;
      LeqReflexive(key(x));
      InsertNamed(x, s[1..], key, k);
      NamedCons(s[0], Insert(x, s[1..], key), key, k);
      if key(s[0]) == k {
        assert key(x) != k;
      }
    }
  }

  /** Sorting orders the keys and leaves elements with equal keys in their order. */
  lemma {:induction false} SortIsStable<T(!new)>(s: seq<T>, key: T -> string)
    ensures Ordered(Sort(s, key), key)
    ensures SameNamed(Sort(s, key), s, key)
  {
    if s != [] {
      SortIsStable(s[1..], key);
      InsertOrdered(s[0], Sort(s[1..], key), key);
      forall k ensures Named(Sort(s, key), key, k) == Named(s, key, k) {
        InsertNamed(s[0], Sort(s[1..], key), key, k);
      }
    }
  }

  lemma {:induction false} NamedMember<T>(s: seq<T>, key: T -> string, x: T)
    requires x in s
    ensures Named(s, key, key(x)) != []
  {
    if s[0] != x { NamedMember(s[1..], key, x); }
  }

  lemma {:induction false} NamedHasKey<T>(s: seq<T>, key: T -> string, k: string)
    ensures forall y :: y in Named(s, key, k) ==> y in s && key(y) == k
  {
    if s != [] { NamedHasKey(s[1..], key, k); }
  }

  lemma FloorOfNamed<T>(a: seq<T>, k: string, key: T -> string)
    requires Ordered(a, key) && Named(a, key, k) != []
    ensures a != [] && Leq(key(a[0]), k)
  {
    NamedHasKey(a, key, k);
    var y := Named(a, key, k)[0];
    assert y in a;
    LeqReflexive(k);
    if y != a[0] { assert y in a[1..]; }
  }

  lemma NamedTail<T>(s: seq<T>, key: T -> string, k: string)
    requires s != []
    ensures Named(s[1..], key, k) == if key(s[0]) == k then Named(s, key, k)[1..] else Named(s, key, k)
  {}

  /** An ordered sequence is determined by its subsequences of equal key. */
  lemma {:induction false} OrderedUnique<T(!new)>(a: seq<T>, b: seq<T>, key: T -> string)
    requires Ordered(a, key) && Ordered(b, key) && SameNamed(a, b, key)
    ensures a == b
  {
    if b != [] { NamedMember(b, key, b[0]); }
    if a == [] {
      assert b == [];
    } else {
      assert Named(a, key, key(a[0])) == Named(b, key, key(a[0]));
      FloorOfNamed(b, key(a[0]), key);
      assert Named(a, key, key(b[0])) == Named(b, key, key(b[0]));
      FloorOfNamed(a, key(b[0]), key);
      LeqAntisymmetric(key(a[0]), key(b[0]));
      assert a[0] == Named(a, key, key(a[0]))[0] == b[0];
      forall k ensures Named(a[1..], key, k) == Named(b[1..], key, k) {
        assert Named(a, key, k) == Named(b, key, k);
        NamedTail(a, key, k);
        NamedTail(b, key, k);
      }
      OrderedUnique(a[1..], b[1..], key);
      assert a == [a[0]] + a[1..] && b == [b[0]] + b[1..];
    }
  }

  /** Two sequences sort to the same one exactly when, key by key, they hold the same elements in
    * the same order. */
  lemma SortedAlikeIff<T(!new)>(a: seq<T>, b: seq<T>, key: T -> string)
    ensures Sort(a, key) == Sort(b, key) <==> SameNamed(a, b, key)
  {
    SortIsStable(a, key);
    SortIsStable(b, key);
    if SameNamed(a, b, key) {
      forall k ensures Named(Sort(a, key), key, k) == Named(Sort(b, key), key, k) {
        assert Named(a, key, k) == Named(b, key, k);
        assert Named(Sort(a, key), key, k) == Named(a, key, k);
        assert Named(Sort(b, key), key, k) == Named(b, key, k);
      }
      OrderedUnique(Sort(a, key), Sort(b, key), key);
    }
    if Sort(a, key) == Sort(b, key) {
      forall k ensures Named(a, key, k) == Named(b, key, k) {
        assert Named(Sort(a, key), key, k) == Named(a, key, k);
        assert Named(Sort(b, key), key, k) == Named(b, key, k);
      }
    }
  }

  lemma SortIdempotent<T(!new)>(s: seq<T>, key: T -> string)
    ensures Sort(Sort(s, key), key) == Sort(s, key)
  {
    SortIsStable(s, key);
    SortedAlikeIff(Sort(s, key), s, key);
  }

  // ---- permutations --------------------------------------------------------------------------

  ghost predicate DistinctKeys<T>(s: seq<T>, key: T -> string) {
    forall i, j :: 0 <= i < j < |s| ==> key(s[i]) != key(s[j])
  }

  lemma {:induction false} InsertPermutes<T>(x: T, s: seq<T>, key: T -> string)
    ensures multiset(Insert(x, s, key)) == multiset{x} + multiset(s)
  {
    if s != [] && !Leq(key(x), key(s[0])) {
      InsertPermutes(x, s[1..], key);
      assert s == [s[0]] + s[1..];
    }
  }

  lemma {:induction false} SortPermutes<T>(s: seq<T>, key: T -> string)
    ensures multiset(Sort(s, key)) == multiset(s)
    ensures |Sort(s, key)| == |s|
  {
    if s != [] {
      SortPermutes(s[1..], key);
      InsertPermutes(s[0], Sort(s[1..], key), key);
      assert s == [s[0]] + s[1..];
    }
    assert |multiset(Sort(s, key))| == |multiset(s)|;
  }

  lemma {:induction false} NamedOfDistinct<T>(s: seq<T>, key: T -> string, k: string)
    requires DistinctKeys(s, key)
    ensures |Named(s, key, k)| <= 1
    ensures forall x :: x in s && key(x) == k ==> Named(s, key, k) == [x]
  {
    if s != [] {
      NamedOfDistinct(s[1..], key, k);
      NamedHasKey(s[1..], key, k);
      forall y | y in Named(s[1..], key, k) ensures key(s[0]) != k {
        assert y in s[1..];
        var j :| 0 < j < |s| && s[j] == y;
      }
      assert key(s[0]) == k ==> |Named(s[1..], key, k)| == 0 by {
        if Named(s[1..], key, k) != [] {
          assert Named(s[1..], key, k)[0] in Named(s[1..], key, k);
        }
      }
      forall x | x in s && key(x) == k ensures Named(s, key, k) == [x] {
        if x != s[0] {
          assert x in s[1..];
          NamedMember(s[1..], key, x);
        }
      }
    }
  }

  lemma {:induction false} NamedCounts<T>(s: seq<T>, key: T -> string, k: string, x: T)
    ensures multiset(Named(s, key, k))[x] == if key(x) == k then multiset(s)[x] else 0
  {
    if s != [] {
      NamedCounts(s[1..], key, k, x);
      assert s == [s[0]] + s[1..];
    }
  }

  lemma PermutedNamed<T(!new)>(a: seq<T>, b: seq<T>, key: T -> string, k: string)
    requires DistinctKeys(a, key) && multiset(a) == multiset(b)
    ensures Named(a, key, k) == Named(b, key, k)
  {
    var na, nb := Named(a, key, k), Named(b, key, k);
    NamedOfDistinct(a, key, k);
    hide Named, DistinctKeys;
    forall x ensures multiset(na)[x] == multiset(nb)[x] {
      NamedCounts(a, key, k, x);
      NamedCounts(b, key, k, x);
    }
    assert multiset(na) == multiset(nb);
    ShortPermutation(na, nb);
  }

  lemma ShortPermutation<T>(a: seq<T>, b: seq<T>)
    requires |a| <= 1 && multiset(a) == multiset(b)
    ensures a == b
  {
    assert |a| == |multiset(a)| == |multiset(b)| == |b|;
    if b != [] { assert b[0] in multiset(a); }
  }

  /** A sequence with pairwise distinct keys sorts like another exactly when that is a permutation
    * of it. */
  lemma DistinctSortedAlikeIff<T(!new)>(a: seq<T>, b: seq<T>, key: T -> string)
    requires DistinctKeys(a, key)
    ensures Sort(a, key) == Sort(b, key) <==> multiset(a) == multiset(b)
  {
    hide Sort, Named, DistinctKeys;
    SortPermutes(a, key);
    SortPermutes(b, key);
    if multiset(a) == multiset(b) {
      forall k ensures Named(a, key, k) == Named(b, key, k) {
        PermutedNamed(a, b, key, k);
      }
      SortedAlikeIff(a, b, key);
    }
  }

  // ---- sorting and mapping -------------------------------------------------------------------

  function Map<S, T>(f: S -> T, s: seq<S>): (r: seq<T>)
    ensures |r| == |s| && forall i :: 0 <= i < |s| ==> r[i] == f(s[i])
  {
    if s == [] then [] else [f(s[0])] + Map(f, s[1..])
  }

  lemma {:induction false} InsertMap<S, T>(f: S -> T, x: S, s: seq<S>, key: S -> string, mapped: T -> string)
    requires forall y :: y in s || y == x ==> mapped(f(y)) == key(y)
    ensures Insert(f(x), Map(f, s), mapped) == Map(f, Insert(x, s, key))
  {
    if s != [] {
      if Leq(key(x), key(s[0])) {
        assert ([x] + s)[1..] == s;
      } else {
        InsertMap(f, x, s[1..], key, mapped);
        assert ([s[0]] + Insert(x, s[1..], key))[1..] == Insert(x, s[1..], key);
        assert Map(f, s)[1..] == Map(f, s[1..]);
      }
    }
  }

  /** Mapping with a function that keeps the key may be done before or after sorting. */
  lemma {:induction false} SortMap<S(!new), T>(f: S -> T, s: seq<S>, key: S -> string, mapped: T -> string)
    requires forall y :: y in s ==> mapped(f(y)) == key(y)
    ensures Sort(Map(f, s), mapped) == Map(f, Sort(s, key))
  {
    if s != [] {
      SortMap(f, s[1..], key, mapped);
      assert Map(f, s)[1..] == Map(f, s[1..]);
      SortPermutes(s[1..], key);
      forall y | y in Sort(s[1..], key) ensures y in s {
        assert y in multiset(Sort(s[1..], key));
      }
      InsertMap(f, s[0], Sort(s[1..], key), key, mapped);
    }
  }
}
