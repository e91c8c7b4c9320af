/** tools/shell/polyfill.ts, utf8Encode and utf8Decode.
  *
  * Strings are sequences of UTF-16 code units, bytes are 8-bit words, and the 32-bit integers of
  * the bitwise operators are `bv32` (every value stays below 2^31, so the sign never matters).
  * The references are section 3 of RFC 3629 (`ScalarBytes`) and the grammar of its section 4
  * (`Rfc3629`).
  */
module Utf8 {
  import opened Prelude
  import opened CodeUnits

  type Byte = bv8
  type Bytes = seq<Byte>

  /** Section 3 of RFC 3629: the one to four octets of a character number. */
  function ScalarBytes(v: bv32): Bytes {
    if v < 0x80 then [ToByte(v)]
    else if v < 0x800 then [ToByte(0xc0 | (v >> 6)), ToByte(0x80 | (v & 0x3f))]
    else if v < 0x10000 then
      [ToByte(0xe0 | (v >> 12)), ToByte(0x80 | ((v >> 6) & 0x3f)), ToByte(0x80 | (v & 0x3f))]
    else
      [ToByte(0xf0 | (v >> 18)), ToByte(0x80 | ((v >> 12) & 0x3f)),
       ToByte(0x80 | ((v >> 6) & 0x3f)), ToByte(0x80 | (v & 0x3f))]
  }

  /** What storing a number in a Uint8Array keeps of it. */
  function ToByte(x: bv32): Byte {
    (x & 0xff) as Byte
  }

  // ---- the grammar of section 4 of RFC 3629 ------------------------------------------------

  predicate Tail(b: Byte) { 0x80 <= b <= 0xbf }

  predicate Utf8Two(b: Bytes) {
    |b| >= 2 && 0xc2 <= b[0] <= 0xdf && Tail(b[1])
  }

  predicate Utf8Three(b: Bytes) {
    && |b| >= 3 && Tail(b[2])
    && (|| (b[0] == 0xe0 && 0xa0 <= b[1] <= 0xbf)
        || (0xe1 <= b[0] <= 0xec && Tail(b[1]))
        || (b[0] == 0xed && 0x80 <= b[1] <= 0x9f)
        || (0xee <= b[0] <= 0xef && Tail(b[1])))
  }

  predicate Utf8Four(b: Bytes) {
    && |b| >= 4 && Tail(b[2]) && Tail(b[3])
    && (|| (b[0] == 0xf0 && 0x90 <= b[1] <= 0xbf)
        || (0xf1 <= b[0] <= 0xf3 && Tail(b[1]))
        || (b[0] == 0xf4 && 0x80 <= b[1] <= 0x8f))
  }

  /** The length of the UTF8-char at the front of `b`, 0 if there is none. */
  function CharLength(b: Bytes): nat {
    if |b| >= 1 && b[0] <= 0x7f then 1
    else if Utf8Two(b) then 2
    else if Utf8Three(b) then 3
    else if Utf8Four(b) then 4
    else 0
  }

  /** UTF8-octets = *( UTF8-char ). */
  predicate Rfc3629(b: Bytes) {
    b == [] || (CharLength(b) > 0 && Rfc3629(b[CharLength(b)..]))
  }

  // ---- encoder -----------------------------------------------------------------------------

  /** The code point the encoder reads at a unit, given the next one, and how many units it takes. */
  function CodePoint(unit: bv32, next: Option<bv32>): (bv32, nat) {
    if unit >= 0xd800 && unit <= 0xdbff then
      if next.Some? && next.value >= 0xdc00 && next.value <= 0xdfff
      then (PairValue(unit, next.value), 2)
      else (0xfffd, 1)
    else if unit >= 0xdc00 && unit <= 0xdfff then (0xfffd, 1)
    else (unit, 1)
  }

  function FirstCodePoint(text: Text): (bv32, nat)
    requires text != []
  {
    CodePoint(CharCodeAt(text, 0).value, CharCodeAt(text, 1))
  }

  lemma FirstCodePointAt(text: Text, i: nat)
    requires i < |text|
    ensures CodePoint(CharCodeAt(text, i).value, CharCodeAt(text, i + 1)) == FirstCodePoint(text[i..])
    ensures 0 < FirstCodePoint(text[i..]).1 <= |text[i..]|
  {
    CharCodeShift(text, i, 0);
    CharCodeShift(text, i, 1);
  }

  function Encode(text: Text): Bytes {
    if text == [] then []
    else
      var (cp, n) := FirstCodePoint(text);
      ScalarBytes(cp) + Encode(text[n..])
  }

  /** The surrogate handling of one turn of the encoder's loop. */
  method ReadCodePoint(unit: bv32, next: Option<bv32>) returns (cp: bv32, n: nat)
    ensures (cp, n) == CodePoint(unit, next)
  {
    cp, n := unit, 1;
    if cp >= 0xd800 && cp <= 0xdbff {
      if next.Some? && next.value >= 0xdc00 && next.value <= 0xdfff {
        cp := 0x10000 + (cp - 0xd800) * 0x400 + (next.value - 0xdc00);
        n := 2;
      } else {
        cp := 0xfffd;
      }
    } else if cp >= 0xdc00 && cp <= 0xdfff {
      cp := 0xfffd;
    }
  }

  method Utf8Encode(text: Text) returns (bytes: Bytes)
    ensures bytes == Encode(text)
  {
    bytes := [];
    var i := 0;
    while i < |text|
      invariant 0 <= i <= |text|
      invariant bytes + Encode(text[i..]) == Encode(text)
    {
      ghost var rest := text[i..];
      FirstCodePointAt(text, i);
      var cp, n := ReadCodePoint(CharCodeAt(text, i).value, CharCodeAt(text, i + 1));
      assert text[i + n..] == rest[n..];
      bytes := PushScalar(bytes, cp, Encode(rest[n..]));
      i := i + n;
    }
  }

  method PushScalar(bytes: Bytes, cp: bv32, ghost rest: Bytes) returns (r: Bytes)
    ensures r + rest == bytes + (ScalarBytes(cp) + rest)
  {
    if cp < 0x80 {
      r := bytes + [ToByte(cp)];
    } else if cp < 0x800 {
      r := bytes + [ToByte(0xc0 | (cp >> 6)), ToByte(0x80 | (cp & 0x3f))];
    } else if cp < 0x10000 {
      r := bytes + [ToByte(0xe0 | (cp >> 12)), ToByte(0x80 | ((cp >> 6) & 0x3f)), ToByte(0x80 | (cp & 0x3f))];
    } else {
      r := bytes + [ToByte(0xf0 | (cp >> 18)), ToByte(0x80 | ((cp >> 12) & 0x3f)),
                    ToByte(0x80 | ((cp >> 6) & 0x3f)), ToByte(0x80 | (cp & 0x3f))];
    }
  }

  // ---- decoder -----------------------------------------------------------------------------

  /** The lead byte's trailing count, payload bits and least code point; None if it is no lead. */
  function Lead(b0: Byte): Option<(nat, bv32, bv32)> {
    if b0 & 0xe0 == 0xc0 then Some((1, (b0 & 0x1f) as bv32, 0x80))
    else if b0 & 0xf0 == 0xe0 then Some((2, (b0 & 0x0f) as bv32, 0x800))
    else if b0 & 0xf8 == 0xf0 then Some((3, (b0 & 0x07) as bv32, 0x10000))
    else None
  }

  function Accumulate(acc: bv32, b: Byte): bv32 {
    (acc << 6) | ((b & 0x3f) as bv32)
  }

  /** The inner loop: accumulate continuation bytes `k`..`need`. */
  function Gather(b: Bytes, k: nat, need: nat, acc: bv32): (r: Option<bv32>)
    ensures r.Some? && k <= need ==> need < |b|
    decreases need + 1 - k
  {
    if k > need then Some(acc)
    else if k >= |b| || b[k] & 0xc0 != 0x80 then None
    else Gather(b, k + 1, need, Accumulate(acc, b[k]))
  }

  /** What follows the inner loop: the range test of the gathered value. */
  function Accept(gathered: Option<bv32>, min: bv32, need: nat): Option<(bv32, nat)> {
    match gathered
    case None => None
    case Some(acc) =>
      if acc < min || acc > 0x10ffff || (acc >= 0xd800 && acc <= 0xdfff) then None else Some((acc, 1 + need))
  }

  /** The code point decoded at the front of `b` and its length, or None for malformed input. */
  function FirstScalar(b: Bytes): (r: Option<(bv32, nat)>)
    requires b != []
    ensures r.Some? ==> 0 < r.value.1 <= |b|
  {
    if b[0] < 0x80 then Some((b[0] as bv32, 1))
    else match Lead(b[0])
      case None => None
      case Some((need, cp, min)) =>
        if need > |b| then None
        else Accept(Gather(b, 1, need, cp), min, need)
  }

  /** The whole decoder; None when it throws. */
  function Decode(b: Bytes, fatal: bool): Option<Text>
    decreases |b|
  {
    if b == [] then Some([])
    else match FirstScalar(b)
      case Some((v, n)) => Prepend(Utf16(v), Decode(b[n..], fatal))
      case None => if fatal then None else Prepend([REPLACEMENT], Decode(b[1..], fatal))
  }

  function Prepend(front: Text, rest: Option<Text>): Option<Text> {
    match rest case None => None case Some(t) => Some(front + t)
  }

  /** The inner loop over the continuation bytes. */
  method ReadTrail(bytes: Bytes, i: nat, need: nat, cp: bv32) returns (r: Option<bv32>)
    requires i < |bytes|
    ensures r == Gather(bytes[i..], 1, need, cp)
  {
    var acc, k := cp, 1;
    while k <= need
      invariant 1 <= k && (k <= need + 1 || k == 1)
      invariant Gather(bytes[i..], k, need, acc) == Gather(bytes[i..], 1, need, cp)
      decreases need + 1 - k
    {
      if i + k >= |bytes| || bytes[i + k] & 0xc0 != 0x80 { return None; }
      acc := (acc << 6) | ((bytes[i + k] & 0x3f) as bv32);
      k := k + 1;
    }
    return Some(acc);
  }

  /** The classification of the lead byte. */
  method ReadLead(b0: Byte) returns (r: Option<(nat, bv32, bv32)>)
    ensures r == Lead(b0)
  {
    if b0 & 0xe0 == 0xc0 {
      return Some((1, (b0 & 0x1f) as bv32, 0x80));
    } else if b0 & 0xf0 == 0xe0 {
      return Some((2, (b0 & 0x0f) as bv32, 0x800));
    } else if b0 & 0xf8 == 0xf0 {
      return Some((3, (b0 & 0x07) as bv32, 0x10000));
    }
    return None;
  }

  /** `bytes[i]` for the code point at `i`: one turn of the loop up to the range test. */
  method ReadScalar(bytes: Bytes, i: nat) returns (r: Option<(bv32, nat)>)
    requires i < |bytes|
    ensures r == FirstScalar(bytes[i..])
  {
    hide Gather, Lead, Accept;
    var n, b0 := |bytes|, bytes[i];
    if b0 < 0x80 { return Some((b0 as bv32, 1)); }
    var lead := ReadLead(b0);
    if lead.None? { return None; }
    var (need, cp, min) := lead.value;
    if i + need >= n + 1 && i + need > n { return None; }
    var gathered := ReadTrail(bytes, i, need, cp);
    r := Checked(gathered, min, need);
  }

  /** The range test of what the inner loop gathered. */
  method Checked(gathered: Option<bv32>, min: bv32, need: nat) returns (r: Option<(bv32, nat)>)
    ensures r == Accept(gathered, min, need)
  {
    if gathered.None? { return None; }
    var acc := gathered.value;
    if acc < min || acc > 0x10ffff || (acc >= 0xd800 && acc <= 0xdfff) { return None; }
    return Some((acc, 1 + need));
  }

  /** `utf8Decode`: the string, or None for the thrown TypeError. */
  method Utf8Decode(bytes: Bytes, fatal: bool) returns (r: Option<Text>)
    ensures r == Decode(bytes, fatal)
  {
    var out: Text := [];
    var i := 0;
    PrependNothing(Decode(bytes, fatal));
    assert bytes[0..] == bytes;
    while i < |bytes|
      invariant 0 <= i <= |bytes|
      invariant Prepend(out, Decode(bytes[i..], fatal)) == Decode(bytes, fatal)
    {
      var next := DecodeTurn(bytes, i, fatal, out);
      if next.None? { return None; }
      out, i := next.value.0, next.value.1;
    }
    assert out + [] == out;
    r := Some(out);
  }

  /** One turn of the decoder's loop: the output and position after it, or None if it throws. */
  method DecodeTurn(bytes: Bytes, i: nat, fatal: bool, out: Text) returns (next: Option<(Text, nat)>)
    requires i < |bytes|
    ensures next.None? ==> Prepend(out, Decode(bytes[i..], fatal)) == None
    ensures next.Some? ==>
      var (out', i') := next.value;
      i < i' <= |bytes| && Prepend(out', Decode(bytes[i'..], fatal)) == Prepend(out, Decode(bytes[i..], fatal))
  {
    hide FirstScalar, Decode, Prepend;
    var first := ReadScalar(bytes, i);
    if first.None? {
      DecodeBad(bytes, i, fatal, out);
      if fatal { return None; }
      return Some((out + [REPLACEMENT], i + 1));
    }
    var (v, n) := first.value;
    DecodeGood(bytes, i, fatal, out, v, n);
    var pushed := PushUnits(out, v);
    return Some((pushed, i + n));
  }

  lemma DecodeGood(bytes: Bytes, i: nat, fatal: bool, out: Text, v: bv32, n: nat)
    requires i < |bytes| && FirstScalar(bytes[i..]) == Some((v, n))
    ensures 0 < n <= |bytes| - i
    ensures Prepend(out, Decode(bytes[i..], fatal)) == Prepend(out + Utf16(v), Decode(bytes[i + n..], fatal))
  {
    assert bytes[i + n..] == bytes[i..][n..];
    PrependTwice(out, Utf16(v), Decode(bytes[i + n..], fatal));
  }

  lemma DecodeBad(bytes: Bytes, i: nat, fatal: bool, out: Text)
    requires i < |bytes| && FirstScalar(bytes[i..]) == None
    ensures
      Prepend(out, Decode(bytes[i..], fatal)) ==
        if fatal then None else Prepend(out + [REPLACEMENT], Decode(bytes[i + 1..], fatal))
  {
    assert bytes[i + 1..] == bytes[i..][1..];
    PrependTwice(out, [REPLACEMENT], Decode(bytes[i + 1..], fatal));
  }

  /** The decoder's two forms of String.fromCharCode. */
  method PushUnits(out: Text, acc: bv32) returns (r: Text)
    ensures r == out + Utf16(acc)
  {
    hide Utf16, HighOf, LowOf;
    if acc <= 0xffff {
      OneUnit(acc);
      r := out + [(acc & 0xffff) as Unit];
    } else {
      TwoUnits(acc);
      var high, low := PairUnits(acc);
      r := out + [high as Unit, low as Unit];
    }
  }

  /** The two arguments of the pair form. */
  method PairUnits(acc: bv32) returns (high: bv32, low: bv32)
    ensures high == HighOf(acc) && low == LowOf(acc)
  {
    var c := acc - 0x10000;
    high, low := (0xd800 + (c >> 10)) & 0xffff, (0xdc00 + (c & 0x3ff)) & 0xffff;
  }

  lemma OneUnit(v: bv32)
    requires v <= 0xffff
    ensures Utf16(v) == [(v & 0xffff) as Unit]
  {}

  lemma TwoUnits(v: bv32)
    requires v > 0xffff
    ensures Utf16(v) == [HighOf(v) as Unit, LowOf(v) as Unit]
  {
    hide HighOf, LowOf;
  }

  lemma PrependNothing(rest: Option<Text>)
    ensures Prepend([], rest) == rest
  {
    if rest.Some? { assert [] + rest.value == rest.value; }
  }

  lemma PrependTwice(a: Text, b: Text, rest: Option<Text>)
    ensures Prepend(a, Prepend(b, rest)) == Prepend(a + b, rest)
  {
    if rest.Some? { assert a + (b + rest.value) == a + b + rest.value; }
  }

  // ---- one character -----------------------------------------------------------------------

  lemma LeadRanges(b0: Byte)
    ensures b0 & 0xe0 == 0xc0 <==> 0xc0 <= b0 <= 0xdf
    ensures b0 & 0xf0 == 0xe0 <==> 0xe0 <= b0 <= 0xef
    ensures b0 & 0xf8 == 0xf0 <==> 0xf0 <= b0 <= 0xf7
    ensures b0 & 0xc0 == 0x80 <==> Tail(b0)
  {
  }

  lemma TwoBytes(b0: Byte, b1: Byte, v: bv32)
    requires 0xc0 <= b0 <= 0xdf && Tail(b1) && v == Accumulate((b0 & 0x1f) as bv32, b1)
    ensures (v >= 0x80 <==> 0xc2 <= b0) && v < 0x800
    ensures v >= 0x80 ==> ToByte(0xc0 | (v >> 6)) == b0 && ToByte(0x80 | (v & 0x3f)) == b1
  {
  }

  lemma ThreeBytes(b0: Byte, b1: Byte, b2: Byte, v: bv32)
    requires 0xe0 <= b0 <= 0xef && Tail(b1) && Tail(b2)
    requires v == Accumulate(Accumulate((b0 & 0x0f) as bv32, b1), b2)
    ensures v < 0x10000
    ensures v >= 0x800 ==>
      && ToByte(0xe0 | (v >> 12)) == b0 && ToByte(0x80 | ((v >> 6) & 0x3f)) == b1 && ToByte(0x80 | (v & 0x3f)) == b2
  {
  }

  lemma ThreeByteRange(b0: Byte, b1: Byte, b2: Byte, v: bv32)
    requires 0xe0 <= b0 <= 0xef && Tail(b1) && Tail(b2)
    requires v == Accumulate(Accumulate((b0 & 0x0f) as bv32, b1), b2)
    ensures v >= 0x800 <==> b0 != 0xe0 || 0xa0 <= b1
    ensures 0xd800 <= v <= 0xdfff <==> b0 == 0xed && 0xa0 <= b1
  {
  }

  lemma FourBytes(b0: Byte, b1: Byte, b2: Byte, b3: Byte, v: bv32)
    requires 0xf0 <= b0 <= 0xf7 && Tail(b1) && Tail(b2) && Tail(b3)
    requires v == Accumulate(Accumulate(Accumulate((b0 & 0x07) as bv32, b1), b2), b3)
    ensures 0x10000 <= v <= 0x10ffff <==>
      (b0 == 0xf0 && 0x90 <= b1) || 0xf1 <= b0 <= 0xf3 || (b0 == 0xf4 && b1 <= 0x8f)
    ensures 0x10000 <= v ==>
      && ToByte(0xf0 | (v >> 18)) == b0 && ToByte(0x80 | ((v >> 12) & 0x3f)) == b1
      && ToByte(0x80 | ((v >> 6) & 0x3f)) == b2 && ToByte(0x80 | (v & 0x3f)) == b3
  {
  }

  lemma TwoOctets(v: bv32, b0: Byte, b1: Byte)
    requires 0x80 <= v < 0x800 && b0 == ToByte(0xc0 | (v >> 6)) && b1 == ToByte(0x80 | (v & 0x3f))
    ensures b0 & 0xe0 == 0xc0 && b1 & 0xc0 == 0x80 && Accumulate((b0 & 0x1f) as bv32, b1) == v
  {
  }

  lemma ThreeOctets(v: bv32, b0: Byte, b1: Byte, b2: Byte)
    requires 0x800 <= v < 0x10000 && b0 == ToByte(0xe0 | (v >> 12))
    requires b1 == ToByte(0x80 | ((v >> 6) & 0x3f)) && b2 == ToByte(0x80 | (v & 0x3f))
    ensures b0 & 0xf0 == 0xe0 && b1 & 0xc0 == 0x80 && b2 & 0xc0 == 0x80
    ensures Accumulate(Accumulate((b0 & 0x0f) as bv32, b1), b2) == v
  {
  }

  lemma FourOctets(v: bv32, b0: Byte, b1: Byte, b2: Byte, b3: Byte)
    requires 0x10000 <= v <= 0x10ffff && b0 == ToByte(0xf0 | (v >> 18)) && b1 == ToByte(0x80 | ((v >> 12) & 0x3f))
    requires b2 == ToByte(0x80 | ((v >> 6) & 0x3f)) && b3 == ToByte(0x80 | (v & 0x3f))
    ensures b0 & 0xf8 == 0xf0 && b1 & 0xc0 == 0x80 && b2 & 0xc0 == 0x80 && b3 & 0xc0 == 0x80
    ensures Accumulate(Accumulate(Accumulate((b0 & 0x07) as bv32, b1), b2), b3) == v
  {
  }

  /** `r` is what reading one character of `b` should give. */
  ghost predicate ReadsChar(b: Bytes, r: Option<(bv32, nat)>) {
    && (r.Some? <==> CharLength(b) > 0)
    && (r.Some? ==> r.value.1 == CharLength(b) && IsScalar(r.value.0) && ScalarBytes(r.value.0) == b[..r.value.1])
  }

  lemma ReadsTwo(b: Bytes)
    requires b != [] && 0xc0 <= b[0] <= 0xdf
    ensures ReadsChar(b, if 1 > |b| then None else Accept(Gather(b, 1, 1, (b[0] & 0x1f) as bv32), 0x80, 1))
  {
    if |b| >= 2 {
      LeadRanges(b[1]);
      var v := Accumulate((b[0] & 0x1f) as bv32, b[1]);
      assert Gather(b, 1, 1, (b[0] & 0x1f) as bv32) == if b[1] & 0xc0 == 0x80 then Some(v) else None;
      if Tail(b[1]) {
        TwoBytes(b[0], b[1], v);
        assert b[..2] == [b[0], b[1]];
      }
    }
  }

  /** Gathering two continuation bytes: it fails unless both are, and its value `v` has the
    * properties of ThreeBytes and ThreeByteRange. */
  lemma GatherTwo(b: Bytes) returns (v: bv32)
    requires |b| >= 3 && 0xe0 <= b[0] <= 0xef
    ensures Gather(b, 1, 2, (b[0] & 0x0f) as bv32) == if Tail(b[1]) && Tail(b[2]) then Some(v) else None
    ensures Tail(b[1]) && Tail(b[2]) ==> ThreeFacts(b[0], b[1], b[2], v)
  {
    var cp := (b[0] & 0x0f) as bv32;
    LeadRanges(b[1]);
    LeadRanges(b[2]);
    v := Accumulate(Accumulate(cp, b[1]), b[2]);
    assert Gather(b, 3, 2, v) == Some(v);
    if Tail(b[1]) && Tail(b[2]) {
      ThreeBytes(b[0], b[1], b[2], v);
      ThreeByteRange(b[0], b[1], b[2], v);
    }
  }

  ghost predicate ThreeFacts(b0: Byte, b1: Byte, b2: Byte, v: bv32) {
    && v < 0x10000
    && (v >= 0x800 <==> b0 != 0xe0 || 0xa0 <= b1)
    && (0xd800 <= v <= 0xdfff <==> b0 == 0xed && 0xa0 <= b1)
    && (v >= 0x800 ==> ScalarBytes(v) == [b0, b1, b2])
  }

  lemma ReadsThree(b: Bytes)
    requires |b| >= 3 && 0xe0 <= b[0] <= 0xef
    ensures ReadsChar(b, Accept(Gather(b, 1, 2, (b[0] & 0x0f) as bv32), 0x800, 2))
  {
    var v := GatherTwo(b);
    AcceptThree(b, v);
  }

  lemma AcceptThree(b: Bytes, v: bv32)
    requires |b| >= 3 && 0xe0 <= b[0] <= 0xef
    requires Tail(b[1]) && Tail(b[2]) ==> ThreeFacts(b[0], b[1], b[2], v)
    ensures ReadsChar(b, Accept(if Tail(b[1]) && Tail(b[2]) then Some(v) else None, 0x800, 2))
  {
    assert b[..3] == [b[0], b[1], b[2]];
  }

  lemma GatherThree(b: Bytes) returns (v: bv32)
    requires |b| >= 4 && 0xf0 <= b[0] <= 0xf7
    ensures Gather(b, 1, 3, (b[0] & 0x07) as bv32) == if Tail(b[1]) && Tail(b[2]) && Tail(b[3]) then Some(v) else None
    ensures Tail(b[1]) && Tail(b[2]) && Tail(b[3]) ==> FourFacts(b[0], b[1], b[2], b[3], v)
  {
    var cp := (b[0] & 0x07) as bv32;
    LeadRanges(b[1]);
    LeadRanges(b[2]);
    LeadRanges(b[3]);
    var a2 := Accumulate(Accumulate(cp, b[1]), b[2]);
    v := Accumulate(a2, b[3]);
    assert Gather(b, 3, 3, a2) == if b[3] & 0xc0 == 0x80 then Some(v) else None;
    if Tail(b[1]) && Tail(b[2]) && Tail(b[3]) {
      FourBytes(b[0], b[1], b[2], b[3], v);
    }
  }

  ghost predicate FourFacts(b0: Byte, b1: Byte, b2: Byte, b3: Byte, v: bv32) {
    && (0x10000 <= v <= 0x10ffff <==> (b0 == 0xf0 && 0x90 <= b1) || 0xf1 <= b0 <= 0xf3 || (b0 == 0xf4 && b1 <= 0x8f))
    && (0x10000 <= v ==> ScalarBytes(v) == [b0, b1, b2, b3])
  }

  lemma ReadsFour(b: Bytes)
    requires |b| >= 4 && 0xf0 <= b[0] <= 0xf7
    ensures ReadsChar(b, Accept(Gather(b, 1, 3, (b[0] & 0x07) as bv32), 0x10000, 3))
  {
    var v := GatherThree(b);
    AcceptFour(b, v);
  }

  lemma AcceptFour(b: Bytes, v: bv32)
    requires |b| >= 4 && 0xf0 <= b[0] <= 0xf7
    requires Tail(b[1]) && Tail(b[2]) && Tail(b[3]) ==> FourFacts(b[0], b[1], b[2], b[3], v)
    ensures ReadsChar(b, Accept(if Tail(b[1]) && Tail(b[2]) && Tail(b[3]) then Some(v) else None, 0x10000, 3))
  {
    assert b[..4] == [b[0], b[1], b[2], b[3]];
  }

  /** The decoder reads a character exactly where the grammar has one, and its octets are that
    * character's. */
  lemma FirstScalarIsRfc(b: Bytes)
    requires b != []
    ensures ReadsChar(b, FirstScalar(b))
  {
    LeadRanges(b[0]);
    if 0xc0 <= b[0] <= 0xdf { ReadsTwo(b); }
    else if 0xe0 <= b[0] <= 0xef { if |b| >= 3 { ReadsThree(b); } }
    else if 0xf0 <= b[0] <= 0xf7 { if |b| >= 4 { ReadsFour(b); } }
    else if b[0] < 0x80 { OneByte(b[0]); assert b[..1] == [b[0]]; }
  }

  lemma OneByte(b0: Byte)
    requires b0 < 0x80
    ensures IsScalar(b0 as bv32) && ScalarBytes(b0 as bv32) == [b0]
  {
  }

  /** Octets of a scalar value read back as that value, whatever follows them. */
  lemma ReadsBack(v: bv32, rest: Bytes)
    requires IsScalar(v)
    ensures FirstScalar(ScalarBytes(v) + rest) == Some((v, |ScalarBytes(v)|))
  {
    if v < 0x80 {
      OneOctet(v);
      assert (ScalarBytes(v) + rest)[0] == ScalarBytes(v)[0];
    } else if v < 0x800 {
      ReadsBackTwo(v, rest);
    } else if v < 0x10000 {
      ReadsBackThree(v, rest);
    } else {
      ReadsBackFour(v, rest);
    }
  }

  lemma OneOctet(v: bv32)
    requires v < 0x80
    ensures ToByte(v) < 0x80 && ToByte(v) as bv32 == v
  {
  }

  lemma LeadOfMask(b0: Byte)
    ensures b0 & 0xe0 == 0xc0 ==> b0 >= 0x80 && Lead(b0) == Some((1, (b0 & 0x1f) as bv32, 0x80))
    ensures b0 & 0xf0 == 0xe0 ==> b0 >= 0x80 && Lead(b0) == Some((2, (b0 & 0x0f) as bv32, 0x800))
    ensures b0 & 0xf8 == 0xf0 ==> b0 >= 0x80 && Lead(b0) == Some((3, (b0 & 0x07) as bv32, 0x10000))
  {
  }

  lemma ReadsBackTwo(v: bv32, rest: Bytes)
    requires 0x80 <= v < 0x800
    ensures FirstScalar(ScalarBytes(v) + rest) == Some((v, 2)) && |ScalarBytes(v)| == 2
  {
    var b0, b1 := ToByte(0xc0 | (v >> 6)), ToByte(0x80 | (v & 0x3f));
    TwoOctets(v, b0, b1);
    LeadOfMask(b0);
    var b := ScalarBytes(v) + rest;
    assert b[0] == b0 && b[1] == b1;
    assert Gather(b, 1, 1, (b0 & 0x1f) as bv32) == Gather(b, 2, 1, v) == Some(v);
  }

  lemma ReadsBackThree(v: bv32, rest: Bytes)
    requires 0x800 <= v < 0x10000 && IsScalar(v)
    ensures FirstScalar(ScalarBytes(v) + rest) == Some((v, 3)) && |ScalarBytes(v)| == 3
  {
    var b0, b1, b2 := ToByte(0xe0 | (v >> 12)), ToByte(0x80 | ((v >> 6) & 0x3f)), ToByte(0x80 | (v & 0x3f));
    ThreeOctets(v, b0, b1, b2);
    LeadOfMask(b0);
    var b := ScalarBytes(v) + rest;
    assert b[0] == b0 && b[1] == b1 && b[2] == b2;
    var a1 := Accumulate((b0 & 0x0f) as bv32, b1);
    assert Gather(b, 2, 2, a1) == Gather(b, 3, 2, v) == Some(v);
  }

  lemma ReadsBackFour(v: bv32, rest: Bytes)
    requires 0x10000 <= v <= 0x10ffff
    ensures FirstScalar(ScalarBytes(v) + rest) == Some((v, 4)) && |ScalarBytes(v)| == 4
  {
    var b0, b1 := ToByte(0xf0 | (v >> 18)), ToByte(0x80 | ((v >> 12) & 0x3f));
    var b2, b3 := ToByte(0x80 | ((v >> 6) & 0x3f)), ToByte(0x80 | (v & 0x3f));
    FourOctets(v, b0, b1, b2, b3);
    LeadOfMask(b0);
    var b := ScalarBytes(v) + rest;
    assert b[0] == b0 && b[1] == b1 && b[2] == b2 && b[3] == b3;
    var a1 := Accumulate((b0 & 0x07) as bv32, b1);
    var a2 := Accumulate(a1, b2);
    assert Gather(b, 3, 3, a2) == Gather(b, 4, 3, v) == Some(v);
    assert Gather(b, 2, 3, a1) == Gather(b, 3, 3, a2);
  }

  // ---- the main results --------------------------------------------------------------------

  lemma CodePointCases(unit: bv32, next: Option<bv32>)
    ensures !(0xd800 <= unit <= 0xdfff) ==> CodePoint(unit, next) == (unit, 1)
    ensures 0xd800 <= unit <= 0xdbff && next.Some? && 0xdc00 <= next.value <= 0xdfff ==>
      CodePoint(unit, next) == (PairValue(unit, next.value), 2)
    ensures 0xd800 <= unit <= 0xdbff && !(next.Some? && 0xdc00 <= next.value <= 0xdfff) ==>
      CodePoint(unit, next) == (0xfffd, 1)
    ensures 0xdc00 <= unit <= 0xdfff ==> CodePoint(unit, next) == (0xfffd, 1)
  {
  }

  /** The same cases in terms of the units of a text. */
  lemma FirstCodePointCases(text: Text)
    requires text != []
    ensures !IsHigh(text[0]) && !IsLow(text[0]) ==> FirstCodePoint(text) == (text[0] as bv32, 1)
    ensures IsHigh(text[0]) && |text| > 1 && IsLow(text[1]) ==>
      FirstCodePoint(text) == (PairValue(text[0] as bv32, text[1] as bv32), 2)
    ensures (IsHigh(text[0]) && !(|text| > 1 && IsLow(text[1]))) || IsLow(text[0]) ==> FirstCodePoint(text) == (0xfffd, 1)
  {
    UnitRanges(text[0]);
    if |text| > 1 { UnitRanges(text[1]); }
    CodePointCases(text[0] as bv32, CharCodeAt(text, 1));
  }

  /** The encoder reads one scalar value back from its UTF-16 form, whatever follows. */
  lemma EncodesScalar(v: bv32, rest: Text)
    requires IsScalar(v)
    ensures Encode(Utf16(v) + rest) == ScalarBytes(v) + Encode(rest)
  {
    var text := Utf16(v) + rest;
    ScalarIsFirst(v, rest);
    assert text[|Utf16(v)|..] == rest;
  }

  lemma UnitIsFirst(u: Unit, rest: Text)
    requires !IsHigh(u) && !IsLow(u)
    ensures FirstCodePoint([u] + rest) == (u as bv32, 1)
  {
    var text := [u] + rest;
    assert CharCodeAt(text, 0) == Some(u as bv32) by { assert text[0] == u; }
    UnitRanges(u);
    CodePointCases(u as bv32, CharCodeAt(text, 1));
  }

  lemma PairIsFirst(high: Unit, low: Unit, rest: Text)
    requires IsHigh(high) && IsLow(low)
    ensures FirstCodePoint([high, low] + rest) == (PairValue(high as bv32, low as bv32), 2)
  {
    assert ([high, low] + rest)[0] == high && ([high, low] + rest)[1] == low;
    FirstCodePointCases([high, low] + rest);
  }

  lemma ScalarIsFirst(v: bv32, rest: Text)
    requires IsScalar(v)
    ensures FirstCodePoint(Utf16(v) + rest) == (v, |Utf16(v)|)
  {
    if v <= 0xffff {
      var u := Utf16Single(v);
      UnitIsFirst(u, rest);
    } else {
      var high, low := Utf16Double(v);
      PairIsFirst(high, low, rest);
    }
  }

  /** One scalar value in front: the decoders agree on it, and it is encoded as it was read. */
  lemma ScalarInFront(b: Bytes, v: bv32, n: nat)
    requires b != [] && FirstScalar(b) == Some((v, n)) && 0 < n <= |b| && IsScalar(v) && b[..n] == ScalarBytes(v)
    ensures Decode(b, true) == Prepend(Utf16(v), Decode(b[n..], true))
    ensures Decode(b, false) == Prepend(Utf16(v), Decode(b[n..], false))
    ensures var rest := Decode(b[n..], true);
      rest.Some? && Encode(rest.value) == b[n..] ==> Encode(Utf16(v) + rest.value) == b
  {
    hide FirstScalar, Encode, ScalarBytes, IsScalar, Utf16;
    var rest := Decode(b[n..], true);
    if rest.Some? { EncodesScalar(v, rest.value); }
    assert b == b[..n] + b[n..];
  }

  /** Fatal decoding succeeds exactly on the octet strings of section 4 of RFC 3629, and
    * re-encoding its result gives those octets back.  On them fatal and non-fatal agree. */
  lemma {:induction false} FatalDecodeIsRfc3629(b: Bytes)
    ensures Decode(b, true).Some? <==> Rfc3629(b)
    ensures Rfc3629(b) ==> Encode(Decode(b, true).value) == b && Decode(b, false) == Decode(b, true)
    decreases |b|
  {
    if b != [] {
      FirstScalarIsRfc(b);
      hide FirstScalar, CharLength, ScalarBytes, IsScalar, Utf16, Encode;
      if FirstScalar(b).Some? {
        var (v, n) := FirstScalar(b).value;
        FatalDecodeIsRfc3629(b[n..]);
        ScalarInFront(b, v, n);
      }
    }
  }

  /** The first code point is a scalar value, and it is the repaired text of its units. */
  ghost predicate TakesRepaired(text: Text, cp: bv32, n: nat) {
    0 < n <= |text| && IsScalar(cp) && Repaired(text) == Utf16(cp) + Repaired(text[n..])
  }

  lemma PairTakesRepaired(text: Text)
    requires |text| > 1 && IsHigh(text[0]) && IsLow(text[1])
    ensures TakesRepaired(text, PairValue(text[0] as bv32, text[1] as bv32), 2)
  {
    Utf16OfPair(text[0], text[1]);
    PairRepairs(text);
  }

  lemma UnpairedTakesRepaired(text: Text)
    requires text != [] && ((IsHigh(text[0]) && !(|text| > 1 && IsLow(text[1]))) || IsLow(text[0]))
    ensures TakesRepaired(text, 0xfffd, 1)
  {
    assert REPLACEMENT as bv32 == 0xfffd;
    Utf16OfUnit(REPLACEMENT);
    UnitRepairs(text, REPLACEMENT);
  }

  lemma PlainTakesRepaired(text: Text)
    requires text != [] && !IsHigh(text[0]) && !IsLow(text[0])
    ensures TakesRepaired(text, text[0] as bv32, 1)
  {
    UnitRanges(text[0]);
    Utf16OfUnit(text[0]);
    UnitRepairs(text, text[0]);
  }

  lemma FirstCodePointRepairs(text: Text)
    requires text != []
    ensures TakesRepaired(text, FirstCodePoint(text).0, FirstCodePoint(text).1)
  {
    FirstCodePointCases(text);
    if IsHigh(text[0]) && |text| > 1 && IsLow(text[1]) {
      PairTakesRepaired(text);
    } else if IsHigh(text[0]) || IsLow(text[0]) {
      UnpairedTakesRepaired(text);
    } else {
      PlainTakesRepaired(text);
    }
  }

  lemma UnitRepairs(text: Text, u: Unit)
    requires text != [] && !(IsHigh(text[0]) && |text| > 1 && IsLow(text[1]))
    requires u == if IsHigh(text[0]) || IsLow(text[0]) then REPLACEMENT else text[0]
    ensures Repaired(text) == [u] + Repaired(text[1..])
  {
    assert Repaired(text[..1]) == [u];
    if 1 < |text| { RepairedCut(text, 1); } else { assert text[..1] == text; }
  }

  lemma PairRepairs(text: Text)
    requires |text| > 1 && IsHigh(text[0]) && IsLow(text[1])
    ensures Repaired(text) == [text[0], text[1]] + Repaired(text[2..])
  {
    assert Repaired(text[..2]) == [text[0], text[1]];
    if 2 < |text| { RepairedCut(text, 2); } else { assert text[..2] == text; }
  }

  lemma DecodesScalar(v: bv32, rest: Bytes, fatal: bool)
    requires IsScalar(v)
    ensures Decode(ScalarBytes(v) + rest, fatal) == Prepend(Utf16(v), Decode(rest, fatal))
  {
    ReadsBack(v, rest);
    assert (ScalarBytes(v) + rest)[|ScalarBytes(v)|..] == rest;
  }

  /** Decoding what the encoder makes of a string gives that string with every unpaired surrogate
    * replaced by U+FFFD, in either mode. */
  lemma {:induction false} DecodeOfEncode(text: Text, fatal: bool)
    ensures Decode(Encode(text), fatal) == Some(Repaired(text))
    decreases |text|
  {
    if text == [] {
      assert Repaired(text) == [];
    } else {
      var (cp, n) := FirstCodePoint(text);
      FirstCodePointRepairs(text);
      DecodeOfEncode(text[n..], fatal);
      DecodesScalar(cp, Encode(text[n..]), fatal);
    }
  }

  /** Non-fatal decoding never throws, and its output has no unpaired surrogate. */
  lemma {:induction false} LenientDecodeIsTotal(b: Bytes)
    ensures Decode(b, false).Some? && WellFormed(Decode(b, false).value)
    decreases |b|
  {
    if b != [] {
      FirstScalarIsRfc(b);
      match FirstScalar(b)
      case Some((v, n)) =>
        LenientDecodeIsTotal(b[n..]);
        ScalarKeepsWellFormed(v, Decode(b[n..], false).value);
      case None =>
        LenientDecodeIsTotal(b[1..]);
        Utf16OfUnit(REPLACEMENT);
        ScalarKeepsWellFormed(0xfffd, Decode(b[1..], false).value);
    }
  }

  /** What non-fatal decoding makes of any bytes: a character of the grammar at the front is read as
    * the text that encodes to it, any other first byte is replaced by U+FFFD, and so on behind. */
  lemma LenientReplaces(b: Bytes) returns (front: Text, rest: Text)
    requires b != []
    ensures
      var n := CharLength(b);
      && 0 <= n <= |b|
      && Decode(b[if n == 0 then 1 else n..], false) == Some(rest) && Decode(b, false) == Some(front + rest)
      && if n == 0 then front == [0xfffd] else Encode(front) == b[..n] && WellFormed(front)
  {
    FirstScalarIsRfc(b);
    LenientDecodeIsTotal(b);
    match FirstScalar(b) {
      case Some((v, n)) =>
        front := Utf16(v);
        LenientDecodeIsTotal(b[n..]);
        rest := Decode(b[n..], false).value;
        hide FirstScalar, CharLength, ScalarBytes, IsScalar, Utf16;
        EncodesScalar(v, []);
        ScalarKeepsWellFormed(v, []);
        assert Utf16(v) + [] == Utf16(v) && ScalarBytes(v) + [] == ScalarBytes(v);
      case None =>
        front := [0xfffd];
        LenientDecodeIsTotal(b[1..]);
        rest := Decode(b[1..], false).value;
    }
  }
}
