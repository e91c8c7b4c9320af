/** What the shape of a type says of the type: a reading of shapes over the entries of the table,
  * entry kind by entry kind, against which unfolding is checked.
  */
module TypeMeaning {
  import opened Prelude
  import opened TypeTable
  import opened TypeShapes

  /** s is the structure of ty: aliases are followed, fields, cases and labels are those of the entry
    * in order, a map is a list of pairs, and a handle is known by the name of its resource. */
  ghost predicate Describes(table: Table, names: Names, rank: map<TypeId, nat>, ty: Type, s: Shape)
    requires Acyclic(table, rank) && (ty.Id? ==> ty.id in table)
    decreases Height(ty, rank)
  {
    if ty.Basic? then s == SBasic(ty.prim)
    else
      assert KindUnder(table, rank, table[ty.id], rank[ty.id]);
      match table[ty.id]
      case Alias(target) => Describes(table, names, rank, target, s)
      case Record(fields) =>
        && s.SRecord? && |fields| == |s.labels| == |s.types|
        && forall i :: 0 <= i < |fields| ==>
             fields[i].name == s.labels[i] && PartDescribed(table, names, rank, ty.id, fields[i].ty, s.types[i])
      case Tuple(types) =>
        && s.STuple? && |types| == |s.types|
        && forall i :: 0 <= i < |types| ==> PartDescribed(table, names, rank, ty.id, types[i], s.types[i])
      case Variant(cases) =>
        && s.SVariant? && |cases| == |s.labels| == |s.payloads|
        && forall i :: 0 <= i < |cases| ==>
             cases[i].name == s.labels[i] && OptionDescribed(table, names, rank, ty.id, cases[i].ty, s.payloads[i])
      case Enum(labels) => s == SEnum(labels)
      case OptionOf(t) => s.SOption? && PartDescribed(table, names, rank, ty.id, t, s.t)
      case ResultOf(ok, err) =>
        && s.SResult? && OptionDescribed(table, names, rank, ty.id, ok, s.ok)
        && OptionDescribed(table, names, rank, ty.id, err, s.err)
      case List(t) => s.SList? && PartDescribed(table, names, rank, ty.id, t, s.t)
      case FixedLengthList(t, n) => s.SFixedList? && s.length == n && PartDescribed(table, names, rank, ty.id, t, s.t)
      case MapOf(k, v) =>
        && s.SList? && s.t.STuple? && |s.t.types| == 2
        && PartDescribed(table, names, rank, ty.id, k, s.t.types[0])
        && PartDescribed(table, names, rank, ty.id, v, s.t.types[1])
      case Flags(labels) => s == SFlags(labels)
      case Own(rid) => rid in names && s == SOwn(names[rid])
      case Borrow(rid) => rid in names && s == SBorrow(names[rid])
      case FutureOf(t) => s.SFuture? && OptionDescribed(table, names, rank, ty.id, t, s.element)
      case StreamOf(t) => s.SStream? && OptionDescribed(table, names, rank, ty.id, t, s.element)
      case Resource => false
      case Unknown => false
  }

  /** A type inside the entry `id`. */
  ghost predicate PartDescribed(table: Table, names: Names, rank: map<TypeId, nat>, id: TypeId, ty: Type, s: Shape)
    requires Acyclic(table, rank) && id in rank
    decreases rank[id] + 1, 0
  {
    Under(table, rank, ty, rank[id]) && Describes(table, names, rank, ty, s)
  }

  ghost predicate OptionDescribed(
    table: Table, names: Names, rank: map<TypeId, nat>, id: TypeId, ty: Option<Type>, s: Option<Shape>)
    requires Acyclic(table, rank) && id in rank
    decreases rank[id] + 1, 1
  {
    ty.Some? == s.Some? && (ty.Some? ==> PartDescribed(table, names, rank, id, ty.value, s.value))
  }

  /** Unfolding finds the one structure that describes a type, and finds none exactly if none does. */
  lemma {:induction false} UnfoldsIff(table: Table, names: Names, rank: map<TypeId, nat>, ty: Type, s: Shape)
    requires Acyclic(table, rank) && (ty.Id? ==> ty.id in table)
    ensures Unfold(table, names, ty, rank) == Some(s) <==> Describes(table, names, rank, ty, s)
    decreases Height(ty, rank), 1
  {
    hide Acyclic, UnfoldAll, UnfoldOption, UnfoldOptions, OptionDescribed;
    if ty.Id? {
      var id := ty.id;
      EntryUnder(table, rank, id);
      match table[id]
      case Alias(target) => UnfoldsIff(table, names, rank, target, s);
      case Record(_) => RecordIff(table, names, rank, id, s);
      case Tuple(_) => ListedIff(table, names, rank, id, s);
      case Variant(_) => VariantIff(table, names, rank, id, s);
      case OptionOf(t) => if s.SOption? { PartIff(table, names, rank, id, t, s.t); }
      case ResultOf(_, _) => ResultIff(table, names, rank, id, s);
      case List(t) => if s.SList? { PartIff(table, names, rank, id, t, s.t); }
      case FixedLengthList(t, _) => if s.SFixedList? { PartIff(table, names, rank, id, t, s.t); }
      case MapOf(_, _) => MapIff(table, names, rank, id, s);
      case FutureOf(_) => ListedIff(table, names, rank, id, s);
      case StreamOf(_) => ListedIff(table, names, rank, id, s);
      case _ =>
    }
  }

  lemma {:induction false} ListedIff(table: Table, names: Names, rank: map<TypeId, nat>, id: TypeId, s: Shape)
    requires Acyclic(table, rank) && id in table
    requires table[id].Tuple? || table[id].FutureOf? || table[id].StreamOf?
    ensures Unfold(table, names, Id(id), rank) == Some(s) <==> Describes(table, names, rank, Id(id), s)
    decreases rank[id] + 1, 0, if table[id].Tuple? then |table[id].types| + 3 else 3
  {
    EntryUnder(table, rank, id);
    hide Acyclic, PartDescribed, OptionDescribed, UnfoldOption;
    match table[id]
    case Tuple(types) => if s.STuple? { AllIff(table, names, rank, id, types, s.types); }
    case FutureOf(t) => if s.SFuture? { OptionIff(table, names, rank, id, t, s.element); }
    case StreamOf(t) => if s.SStream? { OptionIff(table, names, rank, id, t, s.element); }
  }

  lemma {:induction false} PartIff(table: Table, names: Names, rank: map<TypeId, nat>, id: TypeId, ty: Type, s: Shape)
    requires Acyclic(table, rank) && id in rank && Under(table, rank, ty, rank[id])
    ensures Unfold(table, names, ty, rank) == Some(s) <==> PartDescribed(table, names, rank, id, ty, s)
    decreases rank[id] + 1, 0, 0
  {
    hide Acyclic, Unfold, Describes;
    UnfoldsIff(table, names, rank, ty, s);
  }

  lemma {:induction false} OptionIff(
    table: Table, names: Names, rank: map<TypeId, nat>, id: TypeId, ty: Option<Type>, s: Option<Shape>)
    requires Acyclic(table, rank) && id in rank && OptUnder(table, rank, ty, rank[id])
    ensures UnfoldOption(table, names, ty, rank, rank[id]) == Some(s) <==> OptionDescribed(table, names, rank, id, ty, s)
    decreases rank[id] + 1, 0, 1
  {
    hide Acyclic, Unfold, Describes, PartDescribed;
    if ty.Some? && s.Some? { PartIff(table, names, rank, id, ty.value, s.value); }
  }

  lemma {:induction false} AllIff(
    table: Table, names: Names, rank: map<TypeId, nat>, id: TypeId, types: seq<Type>, ss: seq<Shape>)
    requires Acyclic(table, rank) && id in rank && AllUnder(table, rank, types, rank[id])
    ensures UnfoldAll(table, names, types, rank, rank[id]) == Some(ss) <==>
      |types| == |ss| && forall i :: 0 <= i < |types| ==> PartDescribed(table, names, rank, id, types[i], ss[i])
    decreases rank[id] + 1, 0, 1 + |types|
  {
    hide Acyclic, Unfold, PartDescribed;
    if types != [] && ss != [] {
      PartIff(table, names, rank, id, types[0], ss[0]);
      AllIff(table, names, rank, id, types[1..], ss[1..]);
      assert ss == [ss[0]] + ss[1..];
    }
  }

  lemma {:induction false} OptionsIff(
    table: Table, names: Names, rank: map<TypeId, nat>, id: TypeId, types: seq<Option<Type>>, ss: seq<Option<Shape>>)
    requires Acyclic(table, rank) && id in rank && OptsUnder(table, rank, types, rank[id])
    ensures UnfoldOptions(table, names, types, rank, rank[id]) == Some(ss) <==>
      |types| == |ss| && forall i :: 0 <= i < |types| ==> OptionDescribed(table, names, rank, id, types[i], ss[i])
    decreases rank[id] + 1, 0, 2 + |types|
  {
    hide Acyclic, UnfoldOption, OptionDescribed;
    if types != [] && ss != [] {
      OptionIff(table, names, rank, id, types[0], ss[0]);
      OptionsIff(table, names, rank, id, types[1..], ss[1..]);
      assert ss == [ss[0]] + ss[1..];
    }
  }

  lemma SameNames(a: seq<string>, b: seq<string>)
    ensures a == b <==> |a| == |b| && forall i :: 0 <= i < |a| ==> a[i] == b[i]
  {}

  lemma {:induction false} RecordIff(table: Table, names: Names, rank: map<TypeId, nat>, id: TypeId, s: Shape)
    requires Acyclic(table, rank) && id in table && table[id].Record?
    ensures Unfold(table, names, Id(id), rank) == Some(s) <==> Describes(table, names, rank, Id(id), s)
    decreases rank[id] + 1, 0, |table[id].fields| + 3
  {
    EntryUnder(table, rank, id);
    var fields := table[id].fields;
    hide Acyclic, PartDescribed, UnfoldAll;
    if s.SRecord? {
      AllIff(table, names, rank, id, TypesOf(fields), s.types);
      SameNames(FieldNames(fields), s.labels);
      assert forall i :: 0 <= i < |fields| ==> TypesOf(fields)[i] == fields[i].ty && FieldNames(fields)[i] == fields[i].name;
    }
  }

  lemma {:induction false} VariantIff(table: Table, names: Names, rank: map<TypeId, nat>, id: TypeId, s: Shape)
    requires Acyclic(table, rank) && id in table && table[id].Variant?
    ensures Unfold(table, names, Id(id), rank) == Some(s) <==> Describes(table, names, rank, Id(id), s)
    decreases rank[id] + 1, 0, |table[id].cases| + 3
  {
    EntryUnder(table, rank, id);
    var cases := table[id].cases;
    hide Acyclic, OptionDescribed, UnfoldOptions;
    if s.SVariant? {
      OptionsIff(table, names, rank, id, PayloadsOf(cases), s.payloads);
      SameNames(CaseNames(cases), s.labels);
      assert forall i :: 0 <= i < |cases| ==> PayloadsOf(cases)[i] == cases[i].ty && CaseNames(cases)[i] == cases[i].name;
    }
  }

  lemma {:induction false} ResultIff(table: Table, names: Names, rank: map<TypeId, nat>, id: TypeId, s: Shape)
    requires Acyclic(table, rank) && id in table && table[id].ResultOf?
    ensures Unfold(table, names, Id(id), rank) == Some(s) <==> Describes(table, names, rank, Id(id), s)
    decreases rank[id] + 1, 0, 3
  {
    EntryUnder(table, rank, id);
    if s.SResult? {
      OptionIff(table, names, rank, id, table[id].ok, s.ok);
      OptionIff(table, names, rank, id, table[id].err, s.err);
    }
    hide Acyclic, OptionDescribed, UnfoldOption;
  }

  lemma {:induction false} MapIff(table: Table, names: Names, rank: map<TypeId, nat>, id: TypeId, s: Shape)
    requires Acyclic(table, rank) && id in table && table[id].MapOf?
    ensures Unfold(table, names, Id(id), rank) == Some(s) <==> Describes(table, names, rank, Id(id), s)
    decreases rank[id] + 1, 0, 6
  {
    EntryUnder(table, rank, id);
    if s.SList? && s.t.STuple? { AllIff(table, names, rank, id, [table[id].k, table[id].v], s.t.types); }
    hide Acyclic, PartDescribed;
  }
}
