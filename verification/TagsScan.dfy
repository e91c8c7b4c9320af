/** ct-runner/src/tags.ts: lebU32 and collectTagsSections.
  *
  * Bytes are integers.  lebU32 sets disjoint bits of a 32-bit word, which is addition modulo 2^32.
  */
module TagsScan {
  import opened Prelude

  newtype Byte = b: int | 0 <= b < 256
  type Bytes = seq<Byte>

  const TWO32 := 0x1_0000_0000
  const NEWLINE: Byte := 0x0a

  datatype ScanError = TruncatedLeb | LebTooLong | NotWasm | TruncatedSection | TruncatedName

  // ---- LEB128 ----------------------------------------------------------------------------------

  datatype LebRead = LebRead(value: nat, next: nat)

  /** The number spelled from pos in at most n bytes, seven bits a byte, low bits first. */
  function LebAt(bytes: Bytes, pos: nat, n: nat): (r: Result<LebRead, ScanError>)
    ensures r.Ok? ==> pos < r.value.next <= |bytes| && r.value.next <= pos + n
    decreases n
  {
    if n == 0 then Err(LebTooLong)
    else if pos >= |bytes| then Err(TruncatedLeb)
    else if bytes[pos] < 128 then Ok(LebRead(bytes[pos] as nat, pos + 1))
    else
      var rest := LebAt(bytes, pos + 1, n - 1);
      if rest.Err? then rest
      else Ok(LebRead(bytes[pos] as nat - 128 + 128 * rest.value.value, rest.value.next))
  }

  function LebU32Of(bytes: Bytes, pos: nat): (r: Result<LebRead, ScanError>)
    ensures r.Ok? ==> pos < r.value.next <= |bytes| && r.value.value < TWO32
  {
    var r := LebAt(bytes, pos, 5);
    if r.Err? then r else Ok(LebRead(r.value.value % TWO32, r.value.next))
  }

  function Pow128(n: nat): (r: nat)
    ensures r >= 1
  {
    if n == 0 then 1 else 128 * Pow128(n - 1)
  }

  lemma ModAdd(a: nat, b: nat)
    ensures (a % TWO32 + b % TWO32) % TWO32 == (a + b) % TWO32
  {
    assert a == a / TWO32 * TWO32 + a % TWO32;
    assert b == b / TWO32 * TWO32 + b % TWO32;
  }

  /** v shifted left by seven bits for each group. */
  function Shifted(groups: nat, v: nat): nat {
    Pow128(groups) * v
  }

  /** The groups read so far make up whole; the rest of the number starts at at. */
  ghost predicate ReadSoFar(bytes: Bytes, pos: nat, at: nat, groups: nat, whole: nat)
    requires groups <= 5
  {
    var rest := LebAt(bytes, at, 5 - groups);
    LebAt(bytes, pos, 5) ==
      if rest.Err? then rest else Ok(LebRead(whole + Shifted(groups, rest.value.value), rest.value.next))
  }

  lemma NextGroup(groups: nat, b: nat, v: nat)
    ensures Shifted(groups, b + 128 * v) == Shifted(groups, b) + Shifted(groups + 1, v)
  {
    var scale := Pow128(groups);
    assert scale * (b + 128 * v) == scale * b + scale * (128 * v);
    assert scale * (128 * v) == (128 * scale) * v;
  }

  lemma LowBits(b: Byte)
    ensures b as nat % 128 == if b < 128 then b as nat else b as nat - 128
  {}

  lemma ReadOneMore(bytes: Bytes, pos: nat, at: nat, groups: nat, whole: nat)
    requires groups < 5 && at < |bytes| && ReadSoFar(bytes, pos, at, groups, whole)
    ensures var more := whole + Shifted(groups, bytes[at] as nat % 128);
      if bytes[at] < 128 then LebAt(bytes, pos, 5) == Ok(LebRead(more, at + 1))
      else ReadSoFar(bytes, pos, at + 1, groups + 1, more)
  {
    hide Pow128, Shifted;
    LowBits(bytes[at]);
    if bytes[at] >= 128 {
      var rest := LebAt(bytes, at + 1, 4 - groups);
      if rest.Ok? { NextGroup(groups, bytes[at] as nat - 128, rest.value.value); }
    }
  }

  /** Reads a 32-bit number; bits beyond the 32nd are dropped. */
  method LebU32(bytes: Bytes, pos: nat) returns (r: Result<LebRead, ScanError>)
    ensures r == LebU32Of(bytes, pos)
  {
    var result: nat := 0;
    var at: nat := pos;
    var groups: nat := 0; // the shift is 7 * groups
    ghost var whole: nat := 0;
    while true
      invariant groups <= 4 && result == whole % TWO32
      invariant ReadSoFar(bytes, pos, at, groups, whole)
      decreases 5 - groups
    {
      if at >= |bytes| { return Err(TruncatedLeb); }
      var b := bytes[at] as nat;
      ReadOneMore(bytes, pos, at, groups, whole);
      at := at + 1;
      hide Pow128, Shifted, LebAt, ReadSoFar;
      var bits := Shifted(groups, b % 128);
      ModAdd(whole, bits);
      result := (result + bits % TWO32) % TWO32;
      whole := whole + bits;
      if b < 128 { break; }
      groups := groups + 1;
      if groups >= 5 {
        TooLong(bytes, pos, at, whole);
        return Err(LebTooLong);
      }
    }
    return Ok(LebRead(result, at));
  }

  lemma TooLong(bytes: Bytes, pos: nat, at: nat, whole: nat)
    requires ReadSoFar(bytes, pos, at, 5, whole)
    ensures LebAt(bytes, pos, 5) == Err(LebTooLong)
  {}

  /** The spelling that starts at pos ends at end. */
  predicate EndsAt(bytes: Bytes, pos: nat, end: nat) {
    pos <= end < |bytes| && bytes[end] < 128 && AllMore(bytes, pos, end)
  }

  /** Every byte from pos on before end says that more follow. */
  predicate AllMore(bytes: Bytes, pos: nat, end: nat) {
    end <= |bytes| && forall j :: pos <= j < end ==> bytes[j] >= 128
  }

  lemma {:induction false} LebAtAccepts(bytes: Bytes, pos: nat, n: nat)
    requires pos <= |bytes|
    ensures LebAt(bytes, pos, n).Ok? <==> exists end :: pos <= end < pos + n && EndsAt(bytes, pos, end)
    ensures LebAt(bytes, pos, n) == Err(LebTooLong) <==> AllMore(bytes, pos, pos + n)
    decreases n
  {
    if n > 0 && pos < |bytes| {
      if bytes[pos] < 128 {
        assert EndsAt(bytes, pos, pos);
      } else {
        var next := pos + 1;
        LebAtAccepts(bytes, next, n - 1);
        assert AllMore(bytes, pos, pos + n) <==> AllMore(bytes, next, next + (n - 1));
        forall end: nat | next <= end ensures EndsAt(bytes, next, end) <==> EndsAt(bytes, pos, end) {}
        if end: nat :| next <= end < next + (n - 1) && EndsAt(bytes, next, end) {
          assert EndsAt(bytes, pos, end);
        }
      }
    }
  }

  /** A number is read exactly if one of the next five bytes ends it; it is too long if five bytes are
    * there and none does. */
  lemma LebAcceptsIff(bytes: Bytes, pos: nat)
    requires pos <= |bytes|
    ensures LebU32Of(bytes, pos).Ok? <==> exists end :: pos <= end < pos + 5 && EndsAt(bytes, pos, end)
    ensures LebU32Of(bytes, pos) == Err(LebTooLong) <==> AllMore(bytes, pos, pos + 5)
    ensures LebU32Of(bytes, pos).Err? ==> LebU32Of(bytes, pos).error in {LebTooLong, TruncatedLeb}
  {
    LebAtAccepts(bytes, pos, 5);
    LebErrors(bytes, pos, 5);
    hide LebAt;
  }

  lemma {:induction false} LebErrors(bytes: Bytes, pos: nat, n: nat)
    ensures LebAt(bytes, pos, n).Err? ==> LebAt(bytes, pos, n).error in {LebTooLong, TruncatedLeb}
    decreases n
  {
    if n > 0 && pos < |bytes| { LebErrors(bytes, pos + 1, n - 1); }
  }

  // writing

  /** v spelled in exactly width bytes, padded if that is more than it needs. */
  function LebOf(v: nat, width: nat): (r: Bytes)
    ensures width >= 1 ==> |r| == width
  {
    if width <= 1 then [(v % 128) as Byte] else [(v % 128 + 128) as Byte] + LebOf(v / 128, width - 1)
  }

  lemma {:induction false} LebReadsBack(pre: Bytes, v: nat, width: nat, post: Bytes, n: nat)
    requires 1 <= width <= n && v < Pow128(width)
    ensures LebAt(pre + LebOf(v, width) + post, |pre|, n) == Ok(LebRead(v, |pre| + width))
    decreases width
  {
    var s := LebOf(v, width);
    var all := pre + s + post;
    assert all[|pre|] == s[0];
    if width > 1 {
      assert v / 128 < Pow128(width - 1);
      var tail := LebOf(v / 128, width - 1);
      assert all == (pre + [s[0]]) + tail + post;
      LebReadsBack(pre + [s[0]], v / 128, width - 1, post, n - 1);
    }
  }

  /** A 32-bit number fits this many bytes, of which the format allows five. */
  predicate FitsLeb(v: nat, width: nat) {
    v < TWO32 && 1 <= width <= 5 && v < Pow128(width)
  }

  /** Every spelling of a 32-bit number in at most five bytes, padded or not, is read back. */
  lemma LebRoundTrip(pre: Bytes, v: nat, width: nat, post: Bytes)
    requires FitsLeb(v, width)
    ensures LebU32Of(pre + LebOf(v, width) + post, |pre|) == Ok(LebRead(v, |pre| + width))
  {
    hide Pow128, LebAt, LebOf;
    LebReadsBack(pre, v, width, post, 5);
  }

  // ---- the scan --------------------------------------------------------------------------------

  const MAGIC: Bytes := [0x00, 0x61, 0x73, 0x6d]

  /** component-test:tags@0.1 */
  const TAGS_NAME: Bytes := [
    99, 111, 109, 112, 111, 110, 101, 110, 116, 45, 116, 101, 115, 116, 58, 116, 97, 103, 115, 64, 48, 46, 49]

  const BYTE_ORDER_MARK: Bytes := [0xef, 0xbb, 0xbf]

  predicate HasMagic(bytes: Bytes) {
    |bytes| >= 8 && bytes[..4] == MAGIC
  }

  /** The name decodes to the section name; the decoder drops a leading byte order mark. */
  predicate NamesTags(name: Bytes) {
    name == TAGS_NAME || name == BYTE_ORDER_MARK + TAGS_NAME
  }

  /** The codes of a text. */
  ghost predicate Spells(bytes: Bytes, text: string) {
    |bytes| == |text| && forall i :: 0 <= i < |text| ==> bytes[i] as int == text[i] as int
  }

  /** A binary begins with "\0asm" and has a version field behind it. */
  lemma MagicIff(bytes: Bytes)
    ensures HasMagic(bytes) <==> |bytes| >= 8 && Spells(bytes[..4], "\0asm")
  {
    if |bytes| >= 8 && Spells(bytes[..4], "\0asm") { assert bytes[..4] == MAGIC; }
  }

  /** The section is the one called component-test:tags@0.1, with or without a byte order mark. */
  lemma NamesTagsIff(name: Bytes)
    ensures NamesTags(name) <==>
      || Spells(name, "component-test:tags@0.1")
      || (|name| > 3 && name[..3] == [0xef, 0xbb, 0xbf] && Spells(name[3..], "component-test:tags@0.1"))
  {
    TagsName();
    hide TAGS_NAME;
    if Spells(name, "component-test:tags@0.1") { assert name == TAGS_NAME; }
    if |name| > 3 && name[..3] == BYTE_ORDER_MARK && Spells(name[3..], "component-test:tags@0.1") {
      assert name[3..] == TAGS_NAME && name == name[..3] + name[3..];
    }
    if name == BYTE_ORDER_MARK + TAGS_NAME { assert name[3..] == TAGS_NAME; }
  }

  lemma TagsName()
    ensures Spells(TAGS_NAME, "component-test:tags@0.1")
  {}

  /** The tags sections found in buf from pos on, in order. */
  function ScanFrom(buf: Bytes, pos: nat, core: bool): Result<seq<Bytes>, ScanError>
    requires pos <= |buf|
    decreases |buf|, 2, |buf| - pos
  {
    if pos == |buf| then Ok([])
    else
      var here := ScanNext(buf, pos, core);
      if here.Err? then Err(here.error)
      else
        var rest := ScanFrom(buf, here.value.next, core);
        if rest.Err? then rest else Ok(here.value.found + rest.value)
  }

  datatype Progress = Progress(found: seq<Bytes>, next: nat)

  /** What the section at pos holds, and where the next one starts. */
  function ScanNext(buf: Bytes, pos: nat, core: bool): (r: Result<Progress, ScanError>)
    requires pos < |buf|
    ensures r.Ok? ==> pos < r.value.next <= |buf|
    decreases |buf|, 1, 0
  {
    var size := LebU32Of(buf, pos + 1);
    if size.Err? then Err(size.error)
    else
      var end := size.value.next + size.value.value;
      if end > |buf| then Err(TruncatedSection)
      else
        var here := ScanSection(buf, buf[pos], size.value.next, end, core);
        if here.Err? then Err(here.error) else Ok(Progress(here.value, end))
  }

  function ScanSection(buf: Bytes, id: Byte, start: nat, end: nat, core: bool): Result<seq<Bytes>, ScanError>
    requires 0 < start <= end <= |buf|
    decreases |buf|, 0, 0
  {
    if id == 0 then
      var name := LebU32Of(buf, start);
      if name.Err? then Err(name.error)
      else
        var nameEnd := name.value.next + name.value.value;
        if nameEnd > end then Err(TruncatedName)
        else if NamesTags(buf[name.value.next..nameEnd]) then Ok([buf[nameEnd..end]])
        else Ok([])
    else if !core && (id == 1 || id == 4) then
      var payload := buf[start..end];
      if HasMagic(payload) then ScanFrom(payload, 8, id == 1) else Ok([])
    else Ok([])
  }

  predicate Ends(data: Bytes) {
    data != [] && data[|data| - 1] == NEWLINE
  }

  /** A section's records with the final newline that a producer may leave out. */
  function Repaired(data: Bytes): Bytes {
    if Ends(data) then data else data + [NEWLINE]
  }

  /** The repair adds one newline, and only where the last one is missing. */
  lemma RepairedEnds(data: Bytes)
    ensures Repaired(data) != [] && Repaired(data)[|Repaired(data)| - 1] == 0x0a
    ensures Repaired(data) == data || (Repaired(data) == data + [0x0a] && (data == [] || data[|data| - 1] != 0x0a))
  {}

  /** What a section adds to the list of chunks. */
  function ChunksOf(data: Bytes): seq<Bytes> {
    if Ends(data) then [data] else [data, [NEWLINE]]
  }

  function AllChunks(sections: seq<Bytes>): seq<Bytes> {
    if sections == [] then [] else ChunksOf(sections[0]) + AllChunks(sections[1..])
  }

  lemma {:induction false} AllChunksAppend(a: seq<Bytes>, b: seq<Bytes>)
    ensures AllChunks(a + b) == AllChunks(a) + AllChunks(b)
  {
    if a == [] {
      assert a + b == b;
    } else {
      assert (a + b)[1..] == a[1..] + b;
      AllChunksAppend(a[1..], b);
    }
  }

  function Concat(chunks: seq<Bytes>): Bytes {
    if chunks == [] then [] else chunks[0] + Concat(chunks[1..])
  }

  lemma {:induction false} ConcatAppend(a: seq<Bytes>, b: seq<Bytes>)
    ensures Concat(a + b) == Concat(a) + Concat(b)
  {
    if a == [] {
      assert a + b == b;
    } else {
      assert (a + b)[1..] == a[1..] + b;
      ConcatAppend(a[1..], b);
    }
  }

  function RepairedAll(sections: seq<Bytes>): Bytes {
    if sections == [] then [] else Repaired(sections[0]) + RepairedAll(sections[1..])
  }

  lemma {:induction false} ChunksAreRepaired(sections: seq<Bytes>)
    ensures Concat(AllChunks(sections)) == RepairedAll(sections)
    ensures AllChunks(sections) == [] <==> sections == []
  {
    if sections != [] {
      ChunksAreRepaired(sections[1..]);
      ConcatAppend(ChunksOf(sections[0]), AllChunks(sections[1..]));
      var d := sections[0];
      assert Concat([d]) == d + Concat([]) == d;
      assert [d, [NEWLINE]][1..] == [[NEWLINE]];
    }
  }

  /** The sections before pos are these; the rest are found from pos on. */
  ghost predicate FoundSoFar(buf: Bytes, pos: nat, core: bool, sections: seq<Bytes>) {
    && 8 <= pos <= |buf|
    && var rest := ScanFrom(buf, pos, core);
       ScanFrom(buf, 8, core) == if rest.Err? then rest else Ok(sections + rest.value)
  }

  lemma FoundMore(buf: Bytes, pos: nat, core: bool, sections: seq<Bytes>)
    requires FoundSoFar(buf, pos, core, sections) && pos < |buf|
    ensures var here := ScanNext(buf, pos, core);
      if here.Err? then ScanFrom(buf, 8, core) == Err(here.error)
      else FoundSoFar(buf, here.value.next, core, sections + here.value.found)
  {
    hide ScanNext;
    var here := ScanNext(buf, pos, core);
    if here.Ok? {
      var rest := ScanFrom(buf, here.value.next, core);
      if rest.Ok? {
        assert sections + (here.value.found + rest.value) == (sections + here.value.found) + rest.value;
      }
    }
  }

  lemma FoundStart(buf: Bytes, core: bool)
    requires |buf| >= 8
    ensures FoundSoFar(buf, 8, core, [])
  {
    var rest := ScanFrom(buf, 8, core);
    assert rest.Ok? ==> [] + rest.value == rest.value;
  }

  lemma FoundAll(buf: Bytes, core: bool, sections: seq<Bytes>)
    requires FoundSoFar(buf, |buf|, core, sections)
    ensures ScanFrom(buf, 8, core) == Ok(sections)
  {
    assert sections + [] == sections;
  }

  lemma PushedMore(chunks: seq<Bytes>, sections: seq<Bytes>, found: seq<Bytes>)
    ensures (chunks + AllChunks(sections)) + AllChunks(found) == chunks + AllChunks(sections + found)
  {
    AllChunksAppend(sections, found);
    assert (chunks + AllChunks(sections)) + AllChunks(found) == chunks + (AllChunks(sections) + AllChunks(found));
  }

  /** Pushes what one binary holds onto the chunks, and scans the binaries inside it. */
  method Scan(buf: Bytes, core: bool, chunks: seq<Bytes>) returns (r: Result<seq<Bytes>, ScanError>)
    requires |buf| >= 8
    ensures var found := ScanFrom(buf, 8, core);
      r == if found.Err? then Err(found.error) else Ok(chunks + AllChunks(found.value))
    decreases |buf|, 2
  {
    var out := chunks;
    var pos := 8;
    ghost var sections: seq<Bytes> := [];
    FoundStart(buf, core);
    assert chunks + AllChunks([]) == chunks;
    hide FoundSoFar, ScanFrom, ScanNext, AllChunks;
    while pos < |buf|
      invariant 8 <= pos <= |buf| && FoundSoFar(buf, pos, core, sections)
      invariant out == chunks + AllChunks(sections)
      decreases |buf| - pos
    {
      FoundMore(buf, pos, core, sections);
      var step := PushNext(buf, pos, core, out);
      if step.Err? { return Err(step.error); }
      ghost var found := ScanNext(buf, pos, core).value.found;
      PushedMore(chunks, sections, found);
      out := step.value.found;
      sections := sections + found;
      pos := step.value.next;
    }
    FoundAll(buf, core, sections);
    return Ok(out);
  }

  method PushNext(buf: Bytes, pos: nat, core: bool, chunks: seq<Bytes>) returns (r: Result<Progress, ScanError>)
    requires pos < |buf|
    ensures var found := ScanNext(buf, pos, core);
      r == if found.Err? then Err(found.error)
           else Ok(Progress(chunks + AllChunks(found.value.found), found.value.next))
    decreases |buf|, 1
  {
    hide LebU32Of, ScanSection, AllChunks;
    var id := buf[pos];
    var size := LebU32(buf, pos + 1);
    if size.Err? { return Err(size.error); }
    var end := size.value.next + size.value.value;
    if end > |buf| { return Err(TruncatedSection); }
    var pushed := PushSection(buf, id, size.value.next, end, core, chunks);
    if pushed.Err? { return Err(pushed.error); }
    return Ok(Progress(pushed.value, end));
  }

  method PushSection(buf: Bytes, id: Byte, start: nat, end: nat, core: bool, chunks: seq<Bytes>)
    returns (r: Result<seq<Bytes>, ScanError>)
    requires 0 < start <= end <= |buf|
    ensures var found := ScanSection(buf, id, start, end, core);
      r == if found.Err? then Err(found.error) else Ok(chunks + AllChunks(found.value))
    decreases |buf|, 0
  {
    hide LebU32Of, NamesTags, ScanFrom;
    if id == 0 {
      var name := LebU32(buf, start);
      if name.Err? { return Err(name.error); }
      var nameEnd := name.value.next + name.value.value;
      if nameEnd > end { return Err(TruncatedName); }
      if NamesTags(buf[name.value.next..nameEnd]) {
        var data := buf[nameEnd..end];
        assert AllChunks([data]) == ChunksOf(data);
        return Ok(chunks + (if Ends(data) then [data] else [data, [NEWLINE]]));
      }
    } else if !core && (id == 1 || id == 4) {
      var payload := buf[start..end];
      if HasMagic(payload) {
        r := Scan(payload, id == 1, chunks);
        return r;
      }
    }
    assert chunks + AllChunks([]) == chunks;
    return Ok(chunks);
  }

  method Concatenate(chunks: seq<Bytes>) returns (out: array<Byte>)
    ensures out[..] == Concat(chunks)
  {
    var total := 0;
    for i := 0 to |chunks|
      invariant total == |Concat(chunks[..i])|
    {
      ConcatMore(chunks, i);
      total := total + |chunks[i]|;
    }
    assert chunks[..|chunks|] == chunks;
    out := new Byte[total];
    var off := 0;
    for i := 0 to |chunks|
      invariant off == |Concat(chunks[..i])| <= total
      invariant out[..off] == Concat(chunks[..i])
    {
      ConcatMore(chunks, i);
      ConcatPrefix(chunks, i + 1);
      var c := chunks[i];
      ghost var before := out[..off];
      forall k | 0 <= k < |c| { out[off + k] := c[k]; }
      assert out[..off] == before;
      assert out[off..off + |c|] == c;
      assert out[..off + |c|] == out[..off] + out[off..off + |c|];
      off := off + |c|;
    }
  }

  lemma ConcatMore(chunks: seq<Bytes>, i: nat)
    requires i < |chunks|
    ensures Concat(chunks[..i + 1]) == Concat(chunks[..i]) + chunks[i]
  {
    assert chunks[..i + 1] == chunks[..i] + [chunks[i]];
    ConcatAppend(chunks[..i], [chunks[i]]);
    assert Concat([chunks[i]]) == chunks[i] + Concat([]);
  }

  lemma ConcatPrefix(chunks: seq<Bytes>, i: nat)
    requires i <= |chunks|
    ensures |Concat(chunks[..i])| <= |Concat(chunks)|
  {
    assert chunks == chunks[..i] + chunks[i..];
    ConcatAppend(chunks[..i], chunks[i..]);
  }

  /** Every tags section of the binary and of the binaries inside it, each with its final newline;
    * None if there is none. */
  method CollectTagsSections(bytes: Bytes) returns (r: Result<Option<Bytes>, ScanError>)
    ensures !HasMagic(bytes) ==> r == Err(NotWasm)
    ensures HasMagic(bytes) ==>
      var found := ScanFrom(bytes, 8, false);
      r == if found.Err? then Err(found.error)
           else if found.value == [] then Ok(None)
           else Ok(Some(RepairedAll(found.value)))
  {
    if !HasMagic(bytes) { return Err(NotWasm); }
    var chunks := Scan(bytes, false, []);
    if chunks.Err? { return Err(chunks.error); }
    ghost var found := ScanFrom(bytes, 8, false).value;
    assert [] + AllChunks(found) == AllChunks(found);
    ChunksAreRepaired(found);
    if |chunks.value| == 0 { return Ok(None); }
    var out := Concatenate(chunks.value);
    return Ok(Some(out[..]));
  }

  // ---- the scan reads what a binary holds ------------------------------------------------------

  /** A component or core module: its version field and its sections. */
  datatype Binary = Binary(version: Bytes, sections: seq<Section>)

  /** A custom section, a module or component inside a component, or any other section.  The widths
    * are those of the size and name length fields. */
  datatype Section =
    | Custom(width: nat, nameWidth: nat, name: Bytes, data: Bytes)
    | Inner(isModule: bool, width: nat, body: Binary)
    | Other(id: Byte, width: nat, payload: Bytes)

  function Print(b: Binary): Bytes
    decreases b, 1
  {
    MAGIC + b.version + PrintAll(b.sections)
  }

  function PrintAll(sections: seq<Section>): Bytes
    decreases sections
  {
    if sections == [] then [] else PrintSection(sections[0]) + PrintAll(sections[1..])
  }

  function PrintSection(s: Section): Bytes
    decreases s, 1
  {
    [IdOf(s)] + LebOf(|PayloadOf(s)|, s.width) + PayloadOf(s)
  }

  function IdOf(s: Section): Byte {
    match s
    case Custom(_, _, _, _) => 0
    case Inner(isModule, _, _) => if isModule then 1 else 4
    case Other(id, _, _) => id
  }

  function PayloadOf(s: Section): Bytes
    decreases s, 0
  {
    match s
    case Custom(_, nameWidth, name, data) => LebOf(|name|, nameWidth) + name + data
    case Inner(_, _, body) => Print(body)
    case Other(_, _, payload) => payload
  }

  /** A well-formed binary.  A core module holds no binaries, and its sections with the ids of
    * modules and components (types and tables there) may hold anything. */
  ghost predicate Valid(b: Binary, core: bool)
    decreases b, 1
  {
    |b.version| == 4 && AllValid(b.sections, core)
  }

  ghost predicate AllValid(sections: seq<Section>, core: bool)
    decreases sections
  {
    forall i :: 0 <= i < |sections| ==> ValidSection(sections[i], core)
  }

  ghost predicate ValidSection(s: Section, core: bool)
    decreases s
  {
    && FitsLeb(|PayloadOf(s)|, s.width)
    && match s
       case Custom(_, nameWidth, name, _) => FitsLeb(|name|, nameWidth)
       case Inner(isModule, _, body) => !core && Valid(body, isModule)
       case Other(id, _, payload) => id != 0 && (!core && (id == 1 || id == 4) ==> !HasMagic(payload))
  }

  /** The tags sections, depth first. */
  function TagsIn(sections: seq<Section>): seq<Bytes>
    decreases sections
  {
    if sections == [] then [] else TagsOfSection(sections[0]) + TagsIn(sections[1..])
  }

  function TagsOfSection(s: Section): seq<Bytes>
    decreases s
  {
    match s
    case Custom(_, _, name, data) => if NamesTags(name) then [data] else []
    case Inner(_, _, body) => TagsIn(body.sections)
    case Other(_, _, _) => []
  }

  lemma Rebracket(pre: Bytes, id: Byte, size: Bytes, payload: Bytes, post: Bytes)
    ensures var buf := pre + ([id] + size + payload) + post;
      && buf == (pre + [id]) + size + (payload + post)
      && buf == (pre + [id] + size) + payload + post
      && buf[|pre|] == id
  {}

  lemma Middle(a: Bytes, b: Bytes, c: Bytes)
    ensures (a + b + c)[|a|..|a| + |b|] == b
  {}

  lemma ScanNextIs(buf: Bytes, pos: nat, size: LebRead, found: seq<Bytes>, core: bool)
    requires pos < |buf| && LebU32Of(buf, pos + 1) == Ok(size)
    requires size.next + size.value <= |buf|
    requires ScanSection(buf, buf[pos], size.next, size.next + size.value, core) == Ok(found)
    ensures ScanNext(buf, pos, core) == Ok(Progress(found, size.next + size.value))
  {}

  /** The scan takes the section that stands after pre for one holding these tags sections. */
  ghost predicate ScansAs(pre: Bytes, section: Bytes, post: Bytes, core: bool, found: seq<Bytes>) {
    |section| > 0 && ScanNext(pre + section + post, |pre|, core) == Ok(Progress(found, |pre| + |section|))
  }

  lemma HeaderScanned(pre: Bytes, id: Byte, size: Bytes, payload: Bytes, post: Bytes, found: seq<Bytes>, core: bool)
    requires LebU32Of((pre + [id]) + size + (payload + post), |pre + [id]|) == Ok(LebRead(|payload|, |pre + [id]| + |size|))
    requires var start := |pre + [id] + size|;
      ScanSection((pre + [id] + size) + payload + post, id, start, start + |payload|, core) == Ok(found)
    ensures ScansAs(pre, [id] + size + payload, post, core, found)
  {
    hide LebU32Of, ScanSection, ScanNext;
    Rebracket(pre, id, size, payload, post);
    ScanNextIs(pre + ([id] + size + payload) + post, |pre|, LebRead(|payload|, |pre| + 1 + |size|), found, core);
  }

  lemma SizeField(s: Section, core: bool)
    requires ValidSection(s, core)
    ensures FitsLeb(|PayloadOf(s)|, s.width) && |LebOf(|PayloadOf(s)|, s.width)| == s.width
  {}

  lemma {:induction false} SectionScanned(pre: Bytes, s: Section, post: Bytes, core: bool)
    requires ValidSection(s, core)
    ensures ScansAs(pre, PrintSection(s), post, core, TagsOfSection(s))
    decreases s, 1
  {
    hide LebU32Of, LebOf, ScanSection, PayloadOf, TagsOfSection, ValidSection, FitsLeb, IdOf, ScansAs;
    SizeField(s, core);
    var payload := PayloadOf(s);
    var size := LebOf(|payload|, s.width);
    PayloadScanned(pre + [IdOf(s)] + size, s, post, core);
    LebRoundTrip(pre + [IdOf(s)], |payload|, s.width, payload + post);
    HeaderScanned(pre, IdOf(s), size, payload, post, TagsOfSection(s), core);
  }

  lemma CustomIs(buf: Bytes, start: nat, end: nat, core: bool, len: LebRead)
    requires 0 < start <= end <= |buf| && LebU32Of(buf, start) == Ok(len) && len.next + len.value <= end
    ensures ScanSection(buf, 0, start, end, core)
         == Ok(if NamesTags(buf[len.next..len.next + len.value]) then [buf[len.next + len.value..end]] else [])
  {}

  lemma CustomSpelled(front: Bytes, len: Bytes, name: Bytes, data: Bytes, post: Bytes, core: bool)
    requires front != [] && LebU32Of(front + len + (name + data + post), |front|) == Ok(LebRead(|name|, |front| + |len|))
    ensures var payload := len + name + data;
      ScanSection(front + payload + post, 0, |front|, |front| + |payload|, core)
      == Ok(if NamesTags(name) then [data] else [])
  {
    hide LebU32Of, NamesTags, ScanSection;
    CustomParts(front, len, name, data, post);
    CustomIs(front + (len + name + data) + post, |front|, |front| + |len + name + data|, core,
             LebRead(|name|, |front| + |len|));
  }

  lemma CustomScanned(front: Bytes, nameWidth: nat, name: Bytes, data: Bytes, post: Bytes, core: bool)
    requires FitsLeb(|name|, nameWidth) && front != []
    ensures var payload := LebOf(|name|, nameWidth) + name + data;
      ScanSection(front + payload + post, 0, |front|, |front| + |payload|, core)
      == Ok(if NamesTags(name) then [data] else [])
  {
    hide LebU32Of, LebOf, NamesTags, ScanSection;
    LebRoundTrip(front, |name|, nameWidth, name + data + post);
    CustomSpelled(front, LebOf(|name|, nameWidth), name, data, post, core);
  }

  lemma CustomParts(front: Bytes, len: Bytes, name: Bytes, data: Bytes, post: Bytes)
    ensures var buf, at := front + (len + name + data) + post, |front| + |len|;
      && buf == front + len + (name + data + post)
      && buf[at..at + |name|] == name
      && buf[at + |name|..at + |name| + |data|] == data
  {
    var buf := front + (len + name + data) + post;
    assert buf == front + len + (name + data + post);
    Middle(front + len, name, data + post);
    assert buf == (front + len) + name + (data + post);
    Middle(front + len + name, data, post);
    assert buf == (front + len + name) + data + post;
  }

  lemma {:induction false} PayloadScanned(front: Bytes, s: Section, post: Bytes, core: bool)
    requires ValidSection(s, core) && front != []
    ensures var buf, end := front + PayloadOf(s) + post, |front| + |PayloadOf(s)|;
      ScanSection(buf, IdOf(s), |front|, end, core) == Ok(TagsOfSection(s))
    decreases s, 0
  {
    hide Print, ScanFrom, HasMagic, FitsLeb;
    match s
    case Custom(_, nameWidth, name, data) => CustomScanned(front, nameWidth, name, data, post, core);
    case Inner(isModule, _, body) =>
      Middle(front, Print(body), post);
      BinaryScanned(body, isModule);
    case Other(_, _, payload) => Middle(front, payload, post);
  }

  lemma {:induction false} BinaryScanned(b: Binary, core: bool)
    requires Valid(b, core)
    ensures HasMagic(Print(b)) && ScanFrom(Print(b), 8, core) == Ok(TagsIn(b.sections))
    decreases b, 1
  {
    assert Print(b)[..4] == MAGIC;
    SectionsScanned(MAGIC + b.version, b.sections, core);
  }

  /** The scan finds these tags sections in what stands after pre. */
  ghost predicate ScansAllAs(pre: Bytes, sections: Bytes, core: bool, found: seq<Bytes>) {
    ScanFrom(pre + sections, |pre|, core) == Ok(found)
  }

  lemma ScanFromIs(pre: Bytes, first: Bytes, rest: Bytes, core: bool, here: seq<Bytes>, after: seq<Bytes>)
    requires ScansAs(pre, first, rest, core, here) && ScansAllAs(pre + first, rest, core, after)
    ensures ScansAllAs(pre, first + rest, core, here + after)
  {
    hide ScanNext;
    assert pre + (first + rest) == pre + first + rest;
  }

  lemma {:induction false} SectionsScanned(pre: Bytes, sections: seq<Section>, core: bool)
    requires AllValid(sections, core)
    ensures ScansAllAs(pre, PrintAll(sections), core, TagsIn(sections))
    decreases sections, 0
  {
    if sections == [] {
      assert pre + [] == pre;
    } else {
      hide ScansAs, ScansAllAs, ValidSection;
      var first, rest := PrintSection(sections[0]), PrintAll(sections[1..]);
      SectionScanned(pre, sections[0], rest, core);
      SectionsScanned(pre + first, sections[1..], core);
      ScanFromIs(pre, first, rest, core, TagsOfSection(sections[0]), TagsIn(sections[1..]));
    }
  }

  /** Collecting from a printed component gives its tags sections and those of the components and
    * modules inside it, depth first, and never looks inside the sections of a module. */
  method CollectPrinted(b: Binary) returns (r: Result<Option<Bytes>, ScanError>)
    requires Valid(b, false)
    ensures r == Ok(if TagsIn(b.sections) == [] then None else Some(RepairedAll(TagsIn(b.sections))))
  {
    BinaryScanned(b, false);
    r := CollectTagsSections(Print(b));
  }
}
