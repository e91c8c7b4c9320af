/** ct-runner/src/tags.ts: the line structure of collected tags sections, parseTagsRecords and tagsOf. */
module TagsRecords {
  import opened Prelude
  import opened TagsScan

  // ---- lines -----------------------------------------------------------------------------------

  /** The pieces between separators; one more than there are separators. */
  function Split<T(==)>(s: seq<T>, sep: T): (r: seq<seq<T>>)
    ensures |r| >= 1
  {
    if s == [] then [[]]
    else
      var rest := Split(s[1..], sep);
      if s[0] == sep then [[]] + rest else [[s[0]] + rest[0]] + rest[1..]
  }

  function Keep<T>(s: seq<T>, p: T -> bool): (r: seq<T>)
    ensures forall x :: x in r ==> x in s && p(x)
  {
    if s == [] then []
    else
      var rest := Keep(s[1..], p);
      if p(s[0]) then [s[0]] + rest else rest
  }

  lemma {:induction false} KeepAppend<T>(a: seq<T>, b: seq<T>, p: T -> bool)
    ensures Keep(a + b, p) == Keep(a, p) + Keep(b, p)
  {
    if a == [] {
      assert a + b == b;
    } else {
      assert (a + b)[1..] == a[1..] + b;
      KeepAppend(a[1..], b, p);
    }
  }

  lemma {:induction false} SplitAtSeparator<T>(a: seq<T>, b: seq<T>, sep: T)
    ensures Split(a + [sep] + b, sep) == Split(a, sep) + Split(b, sep)
  {
    if a == [] {
      assert (a + [sep] + b)[1..] == b;
    } else {
      assert (a + [sep] + b)[1..] == a[1..] + [sep] + b;
      SplitAtSeparator(a[1..], b, sep);
    }
  }

  /** The lines that count as records, by whatever test discards at least the empty line. */
  function RecordLines(data: Bytes, isRecord: Bytes -> bool): seq<Bytes> {
    Keep(Split(data, NEWLINE), isRecord)
  }

  function LinesOfAll(sections: seq<Bytes>, isRecord: Bytes -> bool): seq<Bytes> {
    if sections == [] then [] else RecordLines(sections[0], isRecord) + LinesOfAll(sections[1..], isRecord)
  }

  lemma LinesAfterNewline(a: Bytes, b: Bytes, isRecord: Bytes -> bool)
    ensures RecordLines(a + [NEWLINE] + b, isRecord) == RecordLines(a, isRecord) + RecordLines(b, isRecord)
  {
    SplitAtSeparator(a, b, NEWLINE);
    KeepAppend(Split(a, NEWLINE), Split(b, NEWLINE), isRecord);
  }

  lemma NoLines(isRecord: Bytes -> bool)
    requires !isRecord([])
    ensures RecordLines([], isRecord) == []
  {
    assert Split<Byte>([], NEWLINE) == [[]];
    assert Keep(Split<Byte>([], NEWLINE)[1..], isRecord) == [];
  }

  lemma RepairedLines(data: Bytes, more: Bytes, isRecord: Bytes -> bool)
    requires !isRecord([])
    ensures RecordLines(Repaired(data) + more, isRecord) == RecordLines(data, isRecord) + RecordLines(more, isRecord)
  {
    if Ends(data) {
      var a := data[..|data| - 1];
      assert data == a + [NEWLINE] == a + [NEWLINE] + [];
      LinesAfterNewline(a, more, isRecord);
      LinesAfterNewline(a, [], isRecord);
      NoLines(isRecord);
    } else {
      LinesAfterNewline(data, more, isRecord);
    }
  }

  /** The repair keeps records of different sections on lines of their own: the record lines of the
    * collected bytes are those of the sections, in order. */
  lemma {:induction false} CollectedLines(sections: seq<Bytes>, isRecord: Bytes -> bool)
    requires !isRecord([])
    ensures RecordLines(RepairedAll(sections), isRecord) == LinesOfAll(sections, isRecord)
  {
    if sections == [] {
      NoLines(isRecord);
    } else {
      CollectedLines(sections[1..], isRecord);
      RepairedLines(sections[0], RepairedAll(sections[1..]), isRecord);
    }
  }

  // ---- records ---------------------------------------------------------------------------------

  datatype Record = Record(name: string, tags: seq<string>)

  datatype Prefix = Prefix(prefix: string, tags: seq<string>)

  datatype Inventory = Inventory(exact: map<string, seq<string>>, prefixes: seq<Prefix>)

  datatype ParseError = EmptyMark(name: string) | DuplicateRecord(name: string)

  /** White space and line ends, as String.prototype.trim removes them. */
  predicate IsSpace(c: char) {
    || c in {'\t', '\n', '\r', ' ', '\U{0b}', '\U{0c}', '\U{a0}', '\U{1680}', '\U{2028}', '\U{2029}', '\U{202f}',
             '\U{205f}', '\U{3000}', '\U{feff}'}
    || '\U{2000}' <= c <= '\U{200a}'
  }

  predicate IsBlank(line: string) {
    forall c :: c in line ==> IsSpace(c)
  }

  predicate NotEmpty(s: string) {
    s != []
  }

  function Words(line: string): seq<string> {
    Keep(Split(line, ' '), NotEmpty)
  }

  lemma {:induction false} SomeWord(line: string, c: char)
    requires c in line && c != ' '
    ensures Words(line) != []
  {
    var pieces := Split(line, ' ');
    var rest := Split(line[1..], ' ');
    if line[0] != ' ' {
      assert pieces[0] != [];
    } else {
      assert c in line[1..];
      SomeWord(line[1..], c);
      assert pieces[1..] == rest;
    }
  }

  function RecordOf(line: string): Record
    requires !IsBlank(line)
  {
    ghost var c :| c in line && !IsSpace(c);
    SomeWord(line, c);
    Record(Words(line)[0], Words(line)[1..])
  }

  /** The records that the lines spell, blank lines skipped. */
  function RecordsIn(lines: seq<string>): seq<Record> {
    if lines == [] then []
    else
      var last := |lines| - 1;
      RecordsIn(lines[..last]) + if IsBlank(lines[last]) then [] else [RecordOf(lines[last])]
  }

  predicate HasEmptyMark(tags: seq<string>) {
    "!" in tags
  }

  /** Every mark names a feature, and no two records share a name. */
  ghost predicate WellFormed(records: seq<Record>) {
    && (forall i :: 0 <= i < |records| ==> "!" !in records[i].tags)
    && (forall i, j :: 0 <= i < j < |records| ==> records[i].name != records[j].name)
  }

  predicate IsPrefixRecord(r: Record) {
    |r.name| >= 2 && r.name[|r.name| - 2..] == "/*"
  }

  function PrefixOf(r: Record): Prefix
    requires IsPrefixRecord(r)
  {
    Prefix(r.name[..|r.name| - 2], r.tags)
  }

  function PrefixesIn(records: seq<Record>): seq<Prefix> {
    if records == [] then []
    else
      var last := |records| - 1;
      PrefixesIn(records[..last]) + if IsPrefixRecord(records[last]) then [PrefixOf(records[last])] else []
  }

  predicate Exact(r: Record, name: string) {
    !IsPrefixRecord(r) && r.name == name
  }

  ghost predicate HasExact(records: seq<Record>, name: string) {
    exists i :: 0 <= i < |records| && Exact(records[i], name)
  }

  ghost predicate ListsExact(exact: map<string, seq<string>>, records: seq<Record>) {
    && (forall name :: name in exact ==> HasExact(records, name))
    && (forall i :: 0 <= i < |records| && !IsPrefixRecord(records[i]) ==>
          records[i].name in exact && exact[records[i].name] == records[i].tags)
  }

  /** The inventory lists exactly these records. */
  ghost predicate Lists(inv: Inventory, records: seq<Record>) {
    ListsExact(inv.exact, records) && inv.prefixes == PrefixesIn(records)
  }

  ghost function NamesOf(records: seq<Record>): set<string> {
    set i | 0 <= i < |records| :: records[i].name
  }

  /** The records before the n-th are well-formed, and e is what is wrong with that one. */
  ghost predicate FirstFault(records: seq<Record>, n: nat, e: ParseError) {
    && n < |records| && WellFormed(records[..n])
    && if "!" in records[n].tags then e == EmptyMark(records[n].name)
       else e == DuplicateRecord(records[n].name) && records[n].name in NamesOf(records[..n])
  }

  lemma RecordsOfPrefix(lines: seq<string>, i: nat)
    requires i < |lines|
    ensures RecordsIn(lines[..i + 1]) == RecordsIn(lines[..i]) + if IsBlank(lines[i]) then [] else [RecordOf(lines[i])]
    ensures RecordsIn(lines[..i + 1]) <= RecordsIn(lines)
  {
    assert lines[..i + 1][..i] == lines[..i];
    RecordsGrow(lines, i + 1);
  }

  lemma {:induction false} RecordsGrow(lines: seq<string>, i: nat)
    requires i <= |lines|
    ensures RecordsIn(lines[..i]) <= RecordsIn(lines)
  {
    if i == |lines| {
      assert lines[..i] == lines;
    } else {
      var last := |lines| - 1;
      assert lines[..last][..i] == lines[..i];
      RecordsGrow(lines[..last], i);
    }
  }

  lemma FaultFound(records: seq<Record>, before: seq<Record>, record: Record, e: ParseError)
    requires before + [record] <= records && WellFormed(before)
    requires if HasEmptyMark(record.tags) then e == EmptyMark(record.name)
             else e == DuplicateRecord(record.name) && record.name in NamesOf(before)
    ensures FirstFault(records, |before|, e) && !WellFormed(records)
  {
    assert records[|before|] == record && records[..|before|] == before;
    if !HasEmptyMark(record.tags) {
      var i :| 0 <= i < |before| && before[i].name == record.name;
      assert records[i].name == records[|before|].name;
    }
  }

  /** The inventory with one more record, under its prefix or its name. */
  function With(inv: Inventory, record: Record): Inventory {
    if IsPrefixRecord(record) then inv.(prefixes := inv.prefixes + [PrefixOf(record)])
    else inv.(exact := inv.exact[record.name := record.tags])
  }

  lemma ListsMore(inv: Inventory, before: seq<Record>, record: Record)
    requires Lists(inv, before) && record.name !in NamesOf(before)
    ensures Lists(With(inv, record), before + [record])
  {
    hide ListsExact, NamesOf, IsPrefixRecord, PrefixOf;
    assert (before + [record])[..|before|] == before;
    if IsPrefixRecord(record) {
      SameExact(inv.exact, before, record);
    } else {
      MoreExact(inv.exact, before, record);
    }
  }

  lemma SameExact(exact: map<string, seq<string>>, before: seq<Record>, record: Record)
    requires ListsExact(exact, before) && IsPrefixRecord(record)
    ensures ListsExact(exact, before + [record])
  {
    forall name | name in exact ensures HasExact(before + [record], name) {
      HasExactMore(before, record, name);
    }
  }

  lemma HasExactMore(before: seq<Record>, record: Record, name: string)
    requires HasExact(before, name) || Exact(record, name)
    ensures HasExact(before + [record], name)
  {
    var after := before + [record];
    if HasExact(before, name) {
      var i :| 0 <= i < |before| && Exact(before[i], name);
      assert Exact(after[i], name);
    } else {
      assert Exact(after[|before|], name);
    }
  }

  lemma MoreExact(exact: map<string, seq<string>>, before: seq<Record>, record: Record)
    requires ListsExact(exact, before) && !IsPrefixRecord(record) && record.name !in NamesOf(before)
    ensures ListsExact(exact[record.name := record.tags], before + [record])
  {
    var more, after := exact[record.name := record.tags], before + [record];
    forall name | name in more ensures HasExact(after, name) {
      assert name in exact ==> HasExact(before, name);
      HasExactMore(before, record, name);
    }
    forall i | 0 <= i < |after| && !IsPrefixRecord(after[i])
      ensures after[i].name in more && more[after[i].name] == after[i].tags
    {
      if i < |before| { assert before[i].name in NamesOf(before); }
    }
  }

  lemma NamesMore(before: seq<Record>, record: Record)
    ensures NamesOf(before + [record]) == NamesOf(before) + {record.name}
  {
    var after := before + [record];
    assert after[|before|] == record;
    forall name ensures name in NamesOf(after) <==> name in NamesOf(before) + {record.name} {
      if name in NamesOf(before) {
        var i :| 0 <= i < |before| && before[i].name == name;
        assert after[i].name == name;
      }
    }
  }

  lemma WellFormedMore(before: seq<Record>, record: Record)
    requires WellFormed(before) && !HasEmptyMark(record.tags) && record.name !in NamesOf(before)
    ensures WellFormed(before + [record])
  {
    var after := before + [record];
    forall i, j | 0 <= i < j < |after| ensures after[i].name != after[j].name {
      if j == |before| { assert before[i].name in NamesOf(before); }
    }
  }

  /** The first i lines are well-formed and have been entered. */
  ghost predicate Entered(lines: seq<string>, i: nat, inv: Inventory, seen: set<string>) {
    && i <= |lines|
    && WellFormed(RecordsIn(lines[..i])) && Lists(inv, RecordsIn(lines[..i]))
    && seen == NamesOf(RecordsIn(lines[..i]))
  }

  lemma EnterBlank(lines: seq<string>, i: nat, inv: Inventory, seen: set<string>)
    requires i < |lines| && Entered(lines, i, inv, seen) && IsBlank(lines[i])
    ensures Entered(lines, i + 1, inv, seen)
  {
    hide WellFormed, Lists, NamesOf, RecordsIn, IsBlank;
    RecordsOfPrefix(lines, i);
    assert RecordsIn(lines[..i + 1]) == RecordsIn(lines[..i]);
  }

  lemma EnterRecord(lines: seq<string>, i: nat, inv: Inventory, seen: set<string>, record: Record)
    requires i < |lines| && Entered(lines, i, inv, seen) && !IsBlank(lines[i]) && record == RecordOf(lines[i])
    requires !HasEmptyMark(record.tags) && record.name !in seen
    ensures Entered(lines, i + 1, With(inv, record), seen + {record.name})
  {
    hide WellFormed, Lists, NamesOf, HasEmptyMark, With, RecordsIn;
    RecordsOfPrefix(lines, i);
    var before := RecordsIn(lines[..i]);
    ListsMore(inv, before, record);
    NamesMore(before, record);
    WellFormedMore(before, record);
  }

  lemma EnterFault(lines: seq<string>, i: nat, inv: Inventory, seen: set<string>, record: Record, e: ParseError)
    requires i < |lines| && Entered(lines, i, inv, seen) && !IsBlank(lines[i]) && record == RecordOf(lines[i])
    requires if HasEmptyMark(record.tags) then e == EmptyMark(record.name)
             else e == DuplicateRecord(record.name) && record.name in seen
    ensures !WellFormed(RecordsIn(lines)) && exists n: nat :: FirstFault(RecordsIn(lines), n, e)
  {
    hide WellFormed, Lists, NamesOf, HasEmptyMark, RecordsIn, FirstFault;
    RecordsOfPrefix(lines, i);
    FaultFound(RecordsIn(lines), RecordsIn(lines[..i]), record, e);
  }

  /** Reads the records of the text, or reports the first that is not well-formed. */
  method ParseTagsRecords(text: string) returns (r: Result<Inventory, ParseError>)
    ensures var records := RecordsIn(Split(text, '\n'));
      && (r.Ok? <==> WellFormed(records))
      && (r.Ok? ==> Lists(r.value, records))
      && (r.Err? ==> exists n: nat :: FirstFault(records, n, r.error))
  {
    var lines := Split(text, '\n');
    var inv := Inventory(map[], []);
    var seen: set<string> := {};
    assert lines[..0] == [];
    for i := 0 to |lines|
      invariant Entered(lines, i, inv, seen)
    {
      hide Entered, WellFormed, Lists, HasEmptyMark, RecordsIn, FirstFault, IsBlank, With;
      if !IsBlank(lines[i]) {
        var record := RecordOf(lines[i]);
        if HasEmptyMark(record.tags) {
          EnterFault(lines, i, inv, seen, record, EmptyMark(record.name));
          return Err(EmptyMark(record.name));
        }
        if record.name in seen {
          EnterFault(lines, i, inv, seen, record, DuplicateRecord(record.name));
          return Err(DuplicateRecord(record.name));
        }
        EnterRecord(lines, i, inv, seen, record);
        seen := seen + {record.name};
        inv := With(inv, record);
      } else {
        EnterBlank(lines, i, inv, seen);
      }
    }
    assert lines[..|lines|] == lines;
    return Ok(inv);
  }

  // ---- writing records -------------------------------------------------------------------------

  function Marks(tags: seq<string>): string {
    if tags == [] then "" else " " + tags[0] + Marks(tags[1..])
  }

  /** A record on a line of its own: the name and then its marks, each after a space. */
  function Printed(r: Record): string {
    r.name + Marks(r.tags)
  }

  function PrintedAll(records: seq<Record>): string {
    if records == [] then "" else Printed(records[0]) + "\n" + PrintedAll(records[1..])
  }

  predicate IsWord(w: string) {
    w != "" && ' ' !in w && '\n' !in w
  }

  /** The name and the marks can be told apart on one line. */
  predicate Printable(r: Record) {
    IsWord(r.name) && !IsBlank(r.name) && forall i :: 0 <= i < |r.tags| ==> IsWord(r.tags[i])
  }

  lemma {:induction false} SplitOne<T>(s: seq<T>, sep: T)
    requires sep !in s
    ensures Split(s, sep) == [s]
  {
    if s != [] {
      SplitOne(s[1..], sep);
      assert s == [s[0]] + s[1..];
    }
  }

  lemma {:induction false} WordsOf(first: string, tags: seq<string>)
    requires IsWord(first) && forall i :: 0 <= i < |tags| ==> IsWord(tags[i])
    ensures Words(first + Marks(tags)) == [first] + tags
    decreases tags
  {
    if tags == [] {
      assert first + Marks(tags) == first;
      SplitOne(first, ' ');
      assert Keep([first], NotEmpty) == [first];
    } else {
      var rest := tags[0] + Marks(tags[1..]);
      assert first + Marks(tags) == first + [' '] + rest;
      SplitAtSeparator(first, rest, ' ');
      SplitOne(first, ' ');
      KeepAppend([first], Split(rest, ' '), NotEmpty);
      assert Keep([first], NotEmpty) == [first];
      WordsOf(tags[0], tags[1..]);
      assert tags == [tags[0]] + tags[1..];
    }
  }

  lemma {:induction false} NoLineEnd(tags: seq<string>)
    requires forall i :: 0 <= i < |tags| ==> IsWord(tags[i])
    ensures '\n' !in Marks(tags)
  {
    if tags != [] { NoLineEnd(tags[1..]); }
  }

  lemma PrintedRead(r: Record)
    requires Printable(r)
    ensures '\n' !in Printed(r) && !IsBlank(Printed(r)) && RecordOf(Printed(r)) == r
  {
    NoLineEnd(r.tags);
    WordsOf(r.name, r.tags);
    var c :| c in r.name && !IsSpace(c);
    assert c in Printed(r);
  }

  lemma {:induction false} RecordsAppend(a: seq<string>, b: seq<string>)
    ensures RecordsIn(a + b) == RecordsIn(a) + RecordsIn(b)
  {
    if b == [] {
      assert a + b == a;
    } else {
      var last := |b| - 1;
      assert (a + b)[..|a + b| - 1] == a + b[..last];
      RecordsAppend(a, b[..last]);
    }
  }

  /** The records read are those written: of each line the first word is the name and the others are
    * its marks. */
  lemma {:induction false} RecordsOfPrinted(records: seq<Record>)
    requires forall i :: 0 <= i < |records| ==> Printable(records[i])
    ensures RecordsIn(Split(PrintedAll(records), '\n')) == records
  {
    if records == [] {
      assert Split<char>("", '\n') == [[]];
      var none: seq<string> := [[]];
      assert none[..0] == [] && RecordsIn(none) == [];
    } else {
      var line, rest := Printed(records[0]), PrintedAll(records[1..]);
      PrintedRead(records[0]);
      assert PrintedAll(records) == line + ['\n'] + rest;
      SplitAtSeparator(line, rest, '\n');
      SplitOne(line, '\n');
      RecordsAppend([line], Split(rest, '\n'));
      assert [line][..0] == [];
      assert RecordsIn([line]) == [records[0]];
      RecordsOfPrinted(records[1..]);
    }
  }

  // ---- which record covers a case --------------------------------------------------------------

  predicate StartsWith(s: string, prefix: string) {
    |prefix| <= |s| && s[..|prefix|] == prefix
  }

  /** name lies below the prefix of a record for generated cases. */
  predicate Below(r: Record, name: string) {
    IsPrefixRecord(r) && StartsWith(name, PrefixOf(r).prefix + "/")
  }

  /** A record for generated cases is written with its prefix and a star, and covers what is written
    * below that prefix. */
  lemma BelowIff(r: Record, name: string)
    ensures Below(r, name) <==>
      exists prefix: string, leaf: string :: r.name == prefix + "/*" && name == prefix + "/" + leaf
  {
    if Below(r, name) {
      var prefix := r.name[..|r.name| - 2];
      assert r.name == prefix + "/*" && name == prefix + "/" + name[|prefix| + 1..];
    }
    if prefix: string, leaf: string :| r.name == prefix + "/*" && name == prefix + "/" + leaf {
      assert r.name[..|r.name| - 2] == prefix && r.name[|r.name| - 2..] == "/*";
      assert name[..|prefix + "/"|] == prefix + "/";
    }
  }

  /** The i-th record decides: it names the case, or no record does and it is the first above it. */
  ghost predicate Decides(records: seq<Record>, i: nat, name: string) {
    && i < |records|
    && (Exact(records[i], name)
        || (Below(records[i], name)
            && (forall j :: 0 <= j < |records| ==> !Exact(records[j], name))
            && (forall j :: 0 <= j < i ==> !Below(records[j], name))))
  }

  /** Where the k-th prefix was recorded, and that those recorded earlier come earlier. */
  lemma {:induction false} PrefixSource(records: seq<Record>, k: nat) returns (i: nat)
    requires k < |PrefixesIn(records)|
    ensures i < |records| && IsPrefixRecord(records[i]) && PrefixesIn(records)[k] == PrefixOf(records[i])
    ensures |PrefixesIn(records[..i])| == k && PrefixesIn(records[..i]) <= PrefixesIn(records)
  {
    var last := |records| - 1;
    if k < |PrefixesIn(records[..last])| {
      i := PrefixSource(records[..last], k);
      assert records[..last][..i] == records[..i];
    } else {
      i := last;
    }
  }

  lemma {:induction false} PrefixListed(records: seq<Record>, i: nat)
    requires i < |records| && IsPrefixRecord(records[i])
    ensures PrefixOf(records[i]) in PrefixesIn(records)
  {
    var last := |records| - 1;
    if i < last { PrefixListed(records[..last], i); }
  }

  /** The tags of the first prefix from the k-th on that name lies below. */
  function FirstAbove(prefixes: seq<Prefix>, name: string, k: nat): Option<seq<string>>
    requires k <= |prefixes|
    decreases |prefixes| - k
  {
    if k == |prefixes| then None
    else if StartsWith(name, prefixes[k].prefix + "/") then Some(prefixes[k].tags)
    else FirstAbove(prefixes, name, k + 1)
  }

  function Covering(inv: Inventory, name: string): Option<seq<string>> {
    if name in inv.exact then Some(inv.exact[name]) else FirstAbove(inv.prefixes, name, 0)
  }

  /** The tags that cover a case, from the record that decides; None if no record covers it. */
  method TagsOf(inv: Inventory, name: string, ghost records: seq<Record>) returns (r: Option<seq<string>>)
    requires Lists(inv, records)
    ensures r == Covering(inv, name)
    ensures r.Some? ==> exists i: nat :: Decides(records, i, name) && r.value == records[i].tags
    ensures r.None? ==> forall i :: 0 <= i < |records| ==> !Exact(records[i], name) && !Below(records[i], name)
  {
    if name in inv.exact {
      assert HasExact(records, name);
      ghost var i :| 0 <= i < |records| && Exact(records[i], name);
      assert Decides(records, i, name);
      return Some(inv.exact[name]);
    }
    for k := 0 to |inv.prefixes|
      invariant forall m :: 0 <= m < k ==> !StartsWith(name, inv.prefixes[m].prefix + "/")
      invariant Covering(inv, name) == FirstAbove(inv.prefixes, name, k)
    {
      if StartsWith(name, inv.prefixes[k].prefix + "/") {
        ghost var i := PrefixSource(records, k);
        forall j | 0 <= j < i ensures !Below(records[j], name) {
          if IsPrefixRecord(records[j]) { PrefixListed(records[..i], j); }
        }
        assert Decides(records, i, name);
        return Some(inv.prefixes[k].tags);
      }
    }
    forall i | 0 <= i < |records| ensures !Below(records[i], name) {
      if IsPrefixRecord(records[i]) { PrefixListed(records, i); }
    }
    return None;
  }

  // ---- marks -----------------------------------------------------------------------------------

  /** A mark asks for a feature, or with `!` for its absence. */
  predicate Satisfied(mark: string, missing: seq<string>) {
    if StartsWith(mark, "!") then mark[1..] in missing else mark !in missing
  }

  predicate Applies(tags: seq<string>, missing: seq<string>) {
    forall t :: t in tags ==> Satisfied(t, missing)
  }

  /** A case applies exactly if no feature it asks for is missing, and every feature that it asks to
    * be absent is. */
  lemma AppliesIff(tags: seq<string>, missing: seq<string>)
    ensures Applies(tags, missing) <==>
      && (forall f :: f in tags && (f == "" || f[0] != '!') ==> f !in missing)
      && (forall f: string :: "!" + f in tags ==> f in missing)
  {
    forall f: string ensures StartsWith("!" + f, "!") && ("!" + f)[1..] == f {}
    forall t: string | StartsWith(t, "!") ensures t == "!" + t[1..] && t[0] == '!' {}
    forall t: string | t != "" && t[0] == '!' ensures StartsWith(t, "!") {}
  }

  function FirstExcluding(tags: seq<string>, missing: seq<string>): string {
    if tags == [] then ""
    else if !Satisfied(tags[0], missing) then tags[0]
    else FirstExcluding(tags[1..], missing)
  }

  ghost predicate Excludes(tags: seq<string>, i: nat, missing: seq<string>) {
    i < |tags| && !Satisfied(tags[i], missing) && Applies(tags[..i], missing)
  }

  /** A case that does not apply is reported with the first mark that rules it out. */
  lemma {:induction false} ExcludingMarkFound(tags: seq<string>, missing: seq<string>)
    requires !Applies(tags, missing)
    ensures exists i :: 0 <= i < |tags| && Excludes(tags, i, missing) && FirstExcluding(tags, missing) == tags[i]
  {
    if Satisfied(tags[0], missing) {
      ExcludingMarkFound(tags[1..], missing);
      var rest := tags[1..];
      var i :| 0 <= i < |rest| && Excludes(rest, i, missing) && FirstExcluding(rest, missing) == rest[i];
      assert tags[..i + 1] == [tags[0]] + rest[..i];
      assert Excludes(tags, i + 1, missing);
    } else {
      assert Excludes(tags, 0, missing);
    }
  }
}
