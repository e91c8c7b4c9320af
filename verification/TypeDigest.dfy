/** What the canonical form of a type does and does not depend on. */
module TypeDigest {
  import opened Prelude
  import opened CanonicalJson
  import opened TypeTable
  import opened TypeShapes

  // ---- documents and shapes --------------------------------------------------------------------

  /** Two types, of two tables, are written down alike up to key order exactly when they have the
    * same shape; and a type that cannot be written down has none. */
  lemma DocumentsEqualIffShapesEqual(
    t1: Table, n1: Names, a: Type, r1: map<TypeId, nat>, t2: Table, n2: Names, b: Type, r2: map<TypeId, nat>)
    requires Acyclic(t1, r1) && (a.Id? ==> a.id in t1)
    requires Acyclic(t2, r2) && (b.Id? ==> b.id in t2)
    ensures SortFound(CanonType(t1, n1, a, r1)) == SortFound(CanonType(t2, n2, b, r2))
       <==> Unfold(t1, n1, a, r1) == Unfold(t2, n2, b, r2)
  {
    hide CanonType, Unfold, Encode, SortKeys, Acyclic;
    CanonTypeIsShape(t1, n1, a, r1);
    CanonTypeIsShape(t2, n2, b, r2);
    var s1, s2 := Unfold(t1, n1, a, r1), Unfold(t2, n2, b, r2);
    if s1.Some? && s2.Some? && SortKeys(Encode(s1.value)) == SortKeys(Encode(s2.value)) {
      EncodeInjective(s1.value, s2.value);
    }
  }

  // ---- refusals --------------------------------------------------------------------------------

  /** The ids an entry refers to in value positions. */
  ghost predicate RefersTo(kind: Kind, id: TypeId) {
    match kind
    case Alias(t) => t == Id(id)
    case Record(fields) => exists i :: 0 <= i < |fields| && TypesOf(fields)[i] == Id(id)
    case Tuple(types) => Id(id) in types
    case Variant(cases) => exists i :: 0 <= i < |cases| && PayloadsOf(cases)[i] == Some(Id(id))
    case OptionOf(t) => t == Id(id)
    case ResultOf(ok, err) => ok == Some(Id(id)) || err == Some(Id(id))
    case List(t) => t == Id(id)
    case FixedLengthList(t, _) => t == Id(id)
    case MapOf(k, v) => k == Id(id) || v == Id(id)
    case FutureOf(t) => t == Some(Id(id))
    case StreamOf(t) => t == Some(Id(id))
    case _ => false
  }

  /** A chain of references from the first id to the last. */
  ghost predicate Chain(table: Table, ids: seq<TypeId>) {
    && ids != []
    && (forall i :: 0 <= i < |ids| ==> ids[i] in table)
    && (forall i :: 0 < i < |ids| ==> RefersTo(table[ids[i - 1]], ids[i]))
  }

  /** An entry that cannot be a value type, or a handle to something that is not a named resource. */
  predicate Faulty(table: Table, names: Names, id: TypeId)
    requires id in table
  {
    match table[id]
    case Resource => true
    case Unknown => true
    case Own(rid) => rid !in names
    case Borrow(rid) => rid !in names
    case _ => false
  }

  ghost predicate ReachesFault(table: Table, names: Names, id: TypeId, ids: seq<TypeId>) {
    Chain(table, ids) && ids[0] == id && Faulty(table, names, ids[|ids| - 1])
  }

  lemma {:induction false} FaultyIsRefused(table: Table, names: Names, id: TypeId, ids: seq<TypeId>, rank: map<TypeId, nat>)
    requires Acyclic(table, rank) && id in table && ReachesFault(table, names, id, ids)
    ensures Unfold(table, names, Id(id), rank) == None
    decreases |ids|
  {
    EntryUnder(table, rank, id);
    if |ids| > 1 {
      var next := ids[1];
      assert RefersTo(table[ids[0]], ids[1]);
      FaultyIsRefused(table, names, next, ids[1..], rank);
      ReferredNone(table, names, id, next, rank);
    }
  }

  lemma OptionNone(table: Table, names: Names, t: Option<Type>, rank: map<TypeId, nat>, b: nat)
    requires Acyclic(table, rank) && OptUnder(table, rank, t, b)
    ensures UnfoldOption(table, names, t, rank, b) == None <==> t.Some? && Unfold(table, names, t.value, rank) == None
  {
    hide Acyclic;
  }

  lemma ReferredNone(table: Table, names: Names, id: TypeId, next: TypeId, rank: map<TypeId, nat>)
    requires Acyclic(table, rank) && id in table && next in table
    requires RefersTo(table[id], next) && Unfold(table, names, Id(next), rank) == None
    ensures Unfold(table, names, Id(id), rank) == None
  {
    EntryUnder(table, rank, id);
    hide Acyclic;
    var b := rank[id];
    match table[id]
    case Record(fields) => AllNone(table, names, TypesOf(fields), rank, b, next);
    case Tuple(types) => AllNone(table, names, types, rank, b, next);
    case MapOf(k, v) => AllNone(table, names, [k, v], rank, b, next);
    case Variant(cases) => OptionsNone(table, names, PayloadsOf(cases), rank, b, next);
    case ResultOf(ok, err) =>
      OptionNone(table, names, ok, rank, b);
      OptionNone(table, names, err, rank, b);
    case FutureOf(t) => OptionNone(table, names, t, rank, b);
    case StreamOf(t) => OptionNone(table, names, t, rank, b);
    case _ =>
  }

  lemma {:induction false} AllNone(table: Table, names: Names, types: seq<Type>, rank: map<TypeId, nat>, b: nat, next: TypeId)
    requires Acyclic(table, rank) && AllUnder(table, rank, types, b)
    requires next in table && Id(next) in types && Unfold(table, names, Id(next), rank) == None
    ensures UnfoldAll(table, names, types, rank, b) == None
  {
    hide Acyclic, Unfold;
    if types[0] != Id(next) { AllNone(table, names, types[1..], rank, b, next); }
  }

  lemma {:induction false} OptionsNone(table: Table, names: Names, types: seq<Option<Type>>, rank: map<TypeId, nat>, b: nat, next: TypeId)
    requires Acyclic(table, rank) && OptsUnder(table, rank, types, b)
    requires next in table && Some(Id(next)) in types && Unfold(table, names, Id(next), rank) == None
    ensures UnfoldOptions(table, names, types, rank, b) == None
  {
    hide Acyclic, Unfold;
    if types[0] != Some(Id(next)) { OptionsNone(table, names, types[1..], rank, b, next); }
  }

  lemma {:induction false} RefusedIsFaulty(table: Table, names: Names, id: TypeId, rank: map<TypeId, nat>)
    returns (ids: seq<TypeId>)
    requires Acyclic(table, rank) && id in table && Unfold(table, names, Id(id), rank) == None
    ensures ReachesFault(table, names, id, ids)
    decreases rank[id]
  {
    EntryUnder(table, rank, id);
    if Faulty(table, names, id) {
      ids := [id];
    } else {
      var next := SomeReferredNone(table, names, id, rank);
      var rest := RefusedIsFaulty(table, names, next, rank);
      ids := [id] + rest;
      assert forall i :: 0 < i < |ids| ==> ids[i] == rest[i - 1];
    }
  }

  lemma NoneHasId(table: Table, names: Names, ty: Type, rank: map<TypeId, nat>) returns (id: TypeId)
    requires Acyclic(table, rank) && (ty.Id? ==> ty.id in table)
    requires Unfold(table, names, ty, rank) == None
    ensures ty == Id(id)
  {
    id := ty.id;
  }

  lemma SomeReferredNone(table: Table, names: Names, id: TypeId, rank: map<TypeId, nat>) returns (next: TypeId)
    requires Acyclic(table, rank) && id in table
    requires Unfold(table, names, Id(id), rank) == None && !Faulty(table, names, id)
    ensures next in table && rank[next] < rank[id]
    ensures RefersTo(table[id], next) && Unfold(table, names, Id(next), rank) == None
  {
    EntryUnder(table, rank, id);
    hide Acyclic;
    var b := rank[id];
    assert UnfoldKind(table, names, table[id], rank, b) == None;
    match table[id]
    case Alias(t) => next := NoneHasId(table, names, t, rank);
    case Record(fields) => next := NoneAmong(table, names, TypesOf(fields), rank, b);
    case Tuple(types) => next := NoneAmong(table, names, types, rank, b);
    case Variant(cases) => next := NoneAmongOptions(table, names, PayloadsOf(cases), rank, b);
    case OptionOf(t) => next := NoneHasId(table, names, t, rank);
    case ResultOf(ok, err) =>
      OptionNone(table, names, ok, rank, b);
      OptionNone(table, names, err, rank, b);
      if UnfoldOption(table, names, ok, rank, b) == None {
        next := NoneHasId(table, names, ok.value, rank);
      } else {
        next := NoneHasId(table, names, err.value, rank);
      }
    case List(t) => next := NoneHasId(table, names, t, rank);
    case FixedLengthList(t, _) => next := NoneHasId(table, names, t, rank);
    case MapOf(k, v) => next := NoneAmong(table, names, [k, v], rank, b);
    case FutureOf(t) =>
      OptionNone(table, names, t, rank, b);
      next := NoneHasId(table, names, t.value, rank);
    case StreamOf(t) =>
      OptionNone(table, names, t, rank, b);
      next := NoneHasId(table, names, t.value, rank);
  }

  lemma {:induction false} NoneAmong(table: Table, names: Names, types: seq<Type>, rank: map<TypeId, nat>, b: nat)
    returns (next: TypeId)
    requires Acyclic(table, rank) && AllUnder(table, rank, types, b)
    requires UnfoldAll(table, names, types, rank, b) == None
    ensures next in table && Under(table, rank, Id(next), b)
    ensures Id(next) in types && Unfold(table, names, Id(next), rank) == None
  {
    assert Under(table, rank, types[0], b);
    if Unfold(table, names, types[0], rank) == None {
      next := types[0].id;
    } else {
      next := NoneAmong(table, names, types[1..], rank, b);
    }
  }

  lemma {:induction false} NoneAmongOptions(
    table: Table, names: Names, types: seq<Option<Type>>, rank: map<TypeId, nat>, b: nat)
    returns (next: TypeId)
    requires Acyclic(table, rank) && OptsUnder(table, rank, types, b)
    requires UnfoldOptions(table, names, types, rank, b) == None
    ensures next in table && Under(table, rank, Id(next), b)
    ensures Some(Id(next)) in types && Unfold(table, names, Id(next), rank) == None
  {
    assert OptUnder(table, rank, types[0], b);
    if types[0].Some? && Unfold(table, names, types[0].value, rank) == None {
      next := types[0].value.id;
    } else {
      next := NoneAmongOptions(table, names, types[1..], rank, b);
    }
  }

  /** canon_type fails exactly on the types that lead, through any chain of references, to a bare
    * resource, an unresolved entry, or a handle to an id without a resource name. */
  lemma RefusedExactly(table: Table, names: Names, id: TypeId, rank: map<TypeId, nat>)
    requires Acyclic(table, rank) && id in table
    ensures CanonType(table, names, Id(id), rank) == None <==> exists ids :: ReachesFault(table, names, id, ids)
  {
    CanonTypeIsShape(table, names, Id(id), rank);
    if Unfold(table, names, Id(id), rank) == None {
      var ids := RefusedIsFaulty(table, names, id, rank);
    }
    forall ids | ReachesFault(table, names, id, ids) ensures Unfold(table, names, Id(id), rank) == None {
      FaultyIsRefused(table, names, id, ids, rank);
    }
  }

  // ---- renumbering and aliases -----------------------------------------------------------------

  /** The chain of aliases that starts at ty passes through target. */
  ghost predicate Leads(table: Table, rank: map<TypeId, nat>, ty: Type, target: Type)
    requires Acyclic(table, rank)
    decreases Height(ty, rank)
  {
    ty == target
    || (ty.Id? && ty.id in table && table[ty.id].Alias?
        && (EntryUnder(table, rank, ty.id); Leads(table, rank, table[ty.id].target, target)))
  }

  /** The type a, renumbered by f, possibly behind more aliases. */
  ghost predicate Respelt(f: map<TypeId, TypeId>, table: Table, rank: map<TypeId, nat>, a: Type, b: Type)
    requires Acyclic(table, rank)
  {
    match a
    case Basic(_) => Leads(table, rank, b, a)
    case Id(i) => i in f && Leads(table, rank, b, Id(f[i]))
  }

  ghost predicate OptRespelt(f: map<TypeId, TypeId>, table: Table, rank: map<TypeId, nat>, a: Option<Type>, b: Option<Type>)
    requires Acyclic(table, rank)
  {
    (a.None? && b.None?) || (a.Some? && b.Some? && Respelt(f, table, rank, a.value, b.value))
  }

  ghost predicate AllRespelt(f: map<TypeId, TypeId>, table: Table, rank: map<TypeId, nat>, a: seq<Type>, b: seq<Type>)
    requires Acyclic(table, rank)
  {
    |a| == |b| && forall i :: 0 <= i < |a| ==> Respelt(f, table, rank, a[i], b[i])
  }

  ghost predicate OptsRespelt(f: map<TypeId, TypeId>, table: Table, rank: map<TypeId, nat>, a: seq<Option<Type>>, b: seq<Option<Type>>)
    requires Acyclic(table, rank)
  {
    |a| == |b| && forall i :: 0 <= i < |a| ==> OptRespelt(f, table, rank, a[i], b[i])
  }

  /** The same kind with its value types respelt; handles name exactly the renumbered resource. */
  ghost predicate KindRespelt(f: map<TypeId, TypeId>, table: Table, rank: map<TypeId, nat>, a: Kind, b: Kind)
    requires Acyclic(table, rank)
  {
    match a
    case Alias(t) => b.Alias? && Respelt(f, table, rank, t, b.target)
    case Record(fields) =>
      b.Record? && FieldNames(fields) == FieldNames(b.fields)
      && AllRespelt(f, table, rank, TypesOf(fields), TypesOf(b.fields))
    case Tuple(types) => b.Tuple? && AllRespelt(f, table, rank, types, b.types)
    case Variant(cases) =>
      b.Variant? && CaseNames(cases) == CaseNames(b.cases)
      && OptsRespelt(f, table, rank, PayloadsOf(cases), PayloadsOf(b.cases))
    case OptionOf(t) => b.OptionOf? && Respelt(f, table, rank, t, b.t)
    case ResultOf(ok, err) =>
      b.ResultOf? && OptRespelt(f, table, rank, ok, b.ok) && OptRespelt(f, table, rank, err, b.err)
    case List(t) => b.List? && Respelt(f, table, rank, t, b.t)
    case FixedLengthList(t, n) => b.FixedLengthList? && b.length == n && Respelt(f, table, rank, t, b.t)
    case MapOf(k, v) => b.MapOf? && Respelt(f, table, rank, k, b.k) && Respelt(f, table, rank, v, b.v)
    case Own(rid) => rid in f && b == Own(f[rid])
    case Borrow(rid) => rid in f && b == Borrow(f[rid])
    case FutureOf(t) => b.FutureOf? && OptRespelt(f, table, rank, t, b.element)
    case StreamOf(t) => b.StreamOf? && OptRespelt(f, table, rank, t, b.element)
    case _ => a == b
  }

  /** t2 holds every entry of t1 under a new number, and perhaps further entries: aliases of them,
    * which value types may go through. */
  ghost predicate TableRespelt(f: map<TypeId, TypeId>, t1: Table, t2: Table, r2: map<TypeId, nat>)
    requires Acyclic(t2, r2)
  {
    && f.Keys == t1.Keys
    && (forall i, j :: i in f && j in f && f[i] == f[j] ==> i == j)
    && forall i :: i in f ==> f[i] in t2 && KindRespelt(f, t2, r2, t1[i], t2[f[i]])
  }

  ghost predicate NamesRespelt(f: map<TypeId, TypeId>, n1: Names, n2: Names) {
    forall i :: i in f ==> (i in n1 <==> f[i] in n2) && (i in n1 ==> n2[f[i]] == n1[i])
  }

  lemma {:induction false} LeadsToSameShape(table: Table, names: Names, rank: map<TypeId, nat>, ty: Type, target: Type)
    requires Acyclic(table, rank) && (ty.Id? ==> ty.id in table) && Leads(table, rank, ty, target)
    ensures target.Id? ==> target.id in table
    ensures Unfold(table, names, ty, rank) == Unfold(table, names, target, rank)
    decreases Height(ty, rank)
  {
    if ty != target {
      EntryUnder(table, rank, ty.id);
      LeadsToSameShape(table, names, rank, table[ty.id].target, target);
    }
  }

  /** Renumbering the table and putting aliases in front of value types does not change a shape. */
  lemma {:induction false} RespellingKeepsShape(
    f: map<TypeId, TypeId>, t1: Table, n1: Names, r1: map<TypeId, nat>, a: Type,
    t2: Table, n2: Names, r2: map<TypeId, nat>, b: Type)
    requires Acyclic(t1, r1) && (a.Id? ==> a.id in t1)
    requires Acyclic(t2, r2) && (b.Id? ==> b.id in t2)
    requires TableRespelt(f, t1, t2, r2) && NamesRespelt(f, n1, n2) && Respelt(f, t2, r2, a, b)
    ensures Unfold(t1, n1, a, r1) == Unfold(t2, n2, b, r2)
    decreases Height(a, r1), 0, 0
  {
    match a
    case Basic(_) => LeadsToSameShape(t2, n2, r2, b, a);
    case Id(i) =>
      LeadsToSameShape(t2, n2, r2, b, Id(f[i]));
      RespellingKeepsEntry(f, t1, n1, r1, i, t2, n2, r2);
  }

  lemma {:induction false} RespellingKeepsEntry(
    f: map<TypeId, TypeId>, t1: Table, n1: Names, r1: map<TypeId, nat>, i: TypeId,
    t2: Table, n2: Names, r2: map<TypeId, nat>)
    requires Acyclic(t1, r1) && i in t1 && Acyclic(t2, r2)
    requires TableRespelt(f, t1, t2, r2) && NamesRespelt(f, n1, n2)
    ensures i in f && f[i] in t2
    ensures Unfold(t1, n1, Id(i), r1) == Unfold(t2, n2, Id(f[i]), r2)
    decreases r1[i], 2, 1
  {
    EntryUnder(t1, r1, i);
    EntryUnder(t2, r2, f[i]);
    assert KindRespelt(f, t2, r2, t1[i], t2[f[i]]);
    hide Acyclic, TableRespelt, Respelt;
    var k2 := t2[f[i]];
    match t1[i]
    case Alias(t) => RespellingKeepsShape(f, t1, n1, r1, t, t2, n2, r2, k2.target);
    case OptionOf(t) => RespellingKeepsShape(f, t1, n1, r1, t, t2, n2, r2, k2.t);
    case List(t) => RespellingKeepsShape(f, t1, n1, r1, t, t2, n2, r2, k2.t);
    case FixedLengthList(t, _) => RespellingKeepsShape(f, t1, n1, r1, t, t2, n2, r2, k2.t);
    case Enum(_) =>
    case Flags(_) =>
    case Own(_) =>
    case Borrow(_) =>
    case Resource =>
    case Unknown =>
    case _ => RespellingKeepsListed(f, t1, n1, r1, i, t2, n2, r2);
  }

  ghost predicate HasList(kind: Kind) {
    kind.Record? || kind.Tuple? || kind.Variant? || kind.ResultOf? || kind.MapOf? || kind.FutureOf? || kind.StreamOf?
  }

  lemma {:induction false} RespellingKeepsListed(
    f: map<TypeId, TypeId>, t1: Table, n1: Names, r1: map<TypeId, nat>, i: TypeId,
    t2: Table, n2: Names, r2: map<TypeId, nat>)
    requires Acyclic(t1, r1) && i in t1 && Acyclic(t2, r2)
    requires TableRespelt(f, t1, t2, r2) && NamesRespelt(f, n1, n2)
    requires HasList(t1[i])
    ensures f[i] in t2 && Unfold(t1, n1, Id(i), r1) == Unfold(t2, n2, Id(f[i]), r2)
    decreases r1[i], 2, 0
  {
    EntryUnder(t1, r1, i);
    EntryUnder(t2, r2, f[i]);
    assert KindRespelt(f, t2, r2, t1[i], t2[f[i]]);
    hide Acyclic, TableRespelt, Respelt, NamesRespelt;
    var b1, b2 := r1[i], r2[f[i]];
    var k2 := t2[f[i]];
    match t1[i]
    case Record(fields) =>
      RespellingKeepsAll(f, t1, n1, r1, TypesOf(fields), b1, t2, n2, r2, TypesOf(k2.fields), b2);
    case Tuple(types) => RespellingKeepsAll(f, t1, n1, r1, types, b1, t2, n2, r2, k2.types, b2);
    case Variant(cases) =>
      RespellingKeepsOptions(f, t1, n1, r1, PayloadsOf(cases), b1, t2, n2, r2, PayloadsOf(k2.cases), b2);
    case ResultOf(ok, err) =>
      RespellingKeepsOption(f, t1, n1, r1, ok, b1, t2, n2, r2, k2.ok, b2);
      RespellingKeepsOption(f, t1, n1, r1, err, b1, t2, n2, r2, k2.err, b2);
    case MapOf(k, v) => RespellingKeepsAll(f, t1, n1, r1, [k, v], b1, t2, n2, r2, [k2.k, k2.v], b2);
    case FutureOf(t) => RespellingKeepsOption(f, t1, n1, r1, t, b1, t2, n2, r2, k2.element, b2);
    case StreamOf(t) => RespellingKeepsOption(f, t1, n1, r1, t, b1, t2, n2, r2, k2.element, b2);
  }

  lemma {:induction false} RespellingKeepsAll(
    f: map<TypeId, TypeId>, t1: Table, n1: Names, r1: map<TypeId, nat>, a: seq<Type>, b1: nat,
    t2: Table, n2: Names, r2: map<TypeId, nat>, b: seq<Type>, b2: nat)
    requires Acyclic(t1, r1) && AllUnder(t1, r1, a, b1) && Acyclic(t2, r2) && AllUnder(t2, r2, b, b2)
    requires TableRespelt(f, t1, t2, r2) && NamesRespelt(f, n1, n2) && AllRespelt(f, t2, r2, a, b)
    ensures UnfoldAll(t1, n1, a, r1, b1) == UnfoldAll(t2, n2, b, r2, b2)
    decreases b1, 1, |a|
  {
    hide Acyclic, TableRespelt, NamesRespelt, Respelt, Unfold;
    if a != [] {
      assert Under(t1, r1, a[0], b1) && Under(t2, r2, b[0], b2);
      RespellingKeepsShape(f, t1, n1, r1, a[0], t2, n2, r2, b[0]);
      RespellingKeepsAll(f, t1, n1, r1, a[1..], b1, t2, n2, r2, b[1..], b2);
    }
  }

  lemma {:induction false} RespellingKeepsOption(
    f: map<TypeId, TypeId>, t1: Table, n1: Names, r1: map<TypeId, nat>, a: Option<Type>, b1: nat,
    t2: Table, n2: Names, r2: map<TypeId, nat>, b: Option<Type>, b2: nat)
    requires Acyclic(t1, r1) && OptUnder(t1, r1, a, b1) && Acyclic(t2, r2) && OptUnder(t2, r2, b, b2)
    requires TableRespelt(f, t1, t2, r2) && NamesRespelt(f, n1, n2) && OptRespelt(f, t2, r2, a, b)
    ensures UnfoldOption(t1, n1, a, r1, b1) == UnfoldOption(t2, n2, b, r2, b2)
    decreases b1, 1, 0
  {
    hide Acyclic, TableRespelt, NamesRespelt, Respelt, Unfold;
    if a.Some? { RespellingKeepsShape(f, t1, n1, r1, a.value, t2, n2, r2, b.value); }
  }

  lemma {:induction false} RespellingKeepsOptions(
    f: map<TypeId, TypeId>, t1: Table, n1: Names, r1: map<TypeId, nat>, a: seq<Option<Type>>, b1: nat,
    t2: Table, n2: Names, r2: map<TypeId, nat>, b: seq<Option<Type>>, b2: nat)
    requires Acyclic(t1, r1) && OptsUnder(t1, r1, a, b1) && Acyclic(t2, r2) && OptsUnder(t2, r2, b, b2)
    requires TableRespelt(f, t1, t2, r2) && NamesRespelt(f, n1, n2) && OptsRespelt(f, t2, r2, a, b)
    ensures UnfoldOptions(t1, n1, a, r1, b1) == UnfoldOptions(t2, n2, b, r2, b2)
    decreases b1, 1, |a|
  {
    hide Acyclic, TableRespelt, NamesRespelt, Respelt, Unfold;
    if a != [] {
      assert OptUnder(t1, r1, a[0], b1) && OptUnder(t2, r2, b[0], b2) && OptRespelt(f, t2, r2, a[0], b[0]);
      RespellingKeepsOption(f, t1, n1, r1, a[0], b1, t2, n2, r2, b[0], b2);
      RespellingKeepsOptions(f, t1, n1, r1, a[1..], b1, t2, n2, r2, b[1..], b2);
    }
  }
}
