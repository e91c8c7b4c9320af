/** tools/shell/polyfill.ts, btoaPolyfill and atobPolyfill.
  *
  * Binary strings and their encodings are sequences of UTF-16 code units, and the 32-bit integers
  * of the bitwise operators are `bv32`: the decoder never masks its accumulator, so its upper bits
  * are lost to the left shift, and `>>` copies the sign bit.
  */
module Base64 {
  import opened Prelude
  import opened CodeUnits

  const EQUALS: Unit := 0x3d

  predicate IsSpace(u: Unit) {
    u == 0x09 || u == 0x0a || u == 0x0c || u == 0x0d || u == 0x20
  }

  /** The alphabet (Table 1 of RFC 4648), by index. */
  function Char(i: bv32): Unit
    requires i < 64
  {
    if i < 26 then (0x41 + i) as Unit
    else if i < 52 then (0x61 + (i - 26)) as Unit
    else if i < 62 then (0x30 + (i - 52)) as Unit
    else if i == 62 then 0x2b
    else 0x2f
  }

  /** `BASE64_CHARS.indexOf`, with None for -1. */
  function Index(u: Unit): Option<bv32> {
    if 0x41 <= u <= 0x5a then Some((u as bv32) - 0x41)
    else if 0x61 <= u <= 0x7a then Some((u as bv32) - 0x61 + 26)
    else if 0x30 <= u <= 0x39 then Some((u as bv32) - 0x30 + 52)
    else if u == 0x2b then Some(62)
    else if u == 0x2f then Some(63)
    else None
  }

  lemma IndexOfChar(i: bv32)
    requires i < 64
    ensures Index(Char(i)) == Some(i) && Char(i) != EQUALS && !IsSpace(Char(i))
  {
  }

  lemma CharOfIndex(u: Unit)
    ensures Index(u).Some? ==> Index(u).value < 64 && Char(Index(u).value) == u && u != EQUALS && !IsSpace(u)
  {
  }

  /** Eight characters of the alphabet from the i-th on. */
  predicate Row(i: bv32, row: seq<Unit>)
    requires i <= 56 && |row| == 8
  {
    && Char(i) == row[0] && Char(i + 1) == row[1] && Char(i + 2) == row[2] && Char(i + 3) == row[3]
    && Char(i + 4) == row[4] && Char(i + 5) == row[5] && Char(i + 6) == row[6] && Char(i + 7) == row[7]
  }

  /** Table 1 of RFC 4648, in ASCII codes: A to Z, a to z, 0 to 9, "+" and "/". */
  lemma AlphabetTable()
    ensures Row(0, [0x41, 0x42, 0x43, 0x44, 0x45, 0x46, 0x47, 0x48])
    ensures Row(8, [0x49, 0x4a, 0x4b, 0x4c, 0x4d, 0x4e, 0x4f, 0x50])
    ensures Row(16, [0x51, 0x52, 0x53, 0x54, 0x55, 0x56, 0x57, 0x58])
    ensures Row(24, [0x59, 0x5a, 0x61, 0x62, 0x63, 0x64, 0x65, 0x66])
    ensures Row(32, [0x67, 0x68, 0x69, 0x6a, 0x6b, 0x6c, 0x6d, 0x6e])
    ensures Row(40, [0x6f, 0x70, 0x71, 0x72, 0x73, 0x74, 0x75, 0x76])
    ensures Row(48, [0x77, 0x78, 0x79, 0x7a, 0x30, 0x31, 0x32, 0x33])
    ensures Row(56, [0x34, 0x35, 0x36, 0x37, 0x38, 0x39, 0x2b, 0x2f])
  {}

  // ---- encoder -----------------------------------------------------------------------------

  function Group(c0: bv32, c1: bv32, c2: bv32): bv32 {
    (c0 << 16) | (c1 << 8) | c2
  }

  function Sextet0(n: bv32): (i: bv32)
    ensures i < 64
  { (n >> 18) & 63 }

  function Sextet1(n: bv32): (i: bv32)
    ensures i < 64
  { (n >> 12) & 63 }

  function Sextet2(n: bv32): (i: bv32)
    ensures i < 64
  { (n >> 6) & 63 }

  function Sextet3(n: bv32): (i: bv32)
    ensures i < 64
  { n & 63 }

  function OrZero(c: Option<bv32>): bv32 {
    match c case None => 0 case Some(value) => value
  }

  /** The four characters of one turn of the encoder's loop. */
  function Quad(c0: bv32, c1: Option<bv32>, c2: Option<bv32>): Text {
    var n := Group(c0, OrZero(c1), OrZero(c2));
    [Char(Sextet0(n)), Char(Sextet1(n)),
     if c1.Some? then Char(Sextet2(n)) else EQUALS, if c2.Some? then Char(Sextet3(n)) else EQUALS]
  }

  /** One byte is written with two "=" behind it, two with one, three with none. */
  lemma PaddingOfQuads(c0: bv32, c1: bv32, c2: bv32)
    ensures Quad(c0, None, None)[2..] == [0x3d, 0x3d] && Quad(c0, Some(c1), None)[3] == 0x3d
    ensures EQUALS !in Quad(c0, Some(c1), Some(c2))
  {
    var n := Group(c0, c1, c2);
    IndexOfChar(Sextet0(n));
    IndexOfChar(Sextet1(n));
    IndexOfChar(Sextet2(n));
    IndexOfChar(Sextet3(n));
  }

  function QuadAt(s: Text, i: nat): Text
    requires i < |s|
  {
    Quad(CharCodeAt(s, i).value, CharCodeAt(s, i + 1), CharCodeAt(s, i + 2))
  }

  lemma QuadShift(s: Text, i: nat)
    requires i < |s|
    ensures QuadAt(s[i..], 0) == QuadAt(s, i)
  {
    hide Quad;
    CharCodeShift(s, i, 0);
    CharCodeShift(s, i, 1);
    CharCodeShift(s, i, 2);
  }

  /** The encoding of a binary string of units at most 255. */
  function Encode(s: Text): Text {
    if s == [] then []
    else QuadAt(s, 0) + Encode(s[if |s| < 3 then |s| else 3..])
  }

  predicate Latin1(s: Text) {
    forall i :: 0 <= i < |s| ==> s[i] <= 255
  }

  /** `btoaPolyfill`, with None for the thrown error. */
  method Btoa(binary: Text) returns (r: Option<Text>)
    ensures r == if Latin1(binary) then Some(Encode(binary)) else None
  {
    var out: Text := [];
    var i := 0;
    assert binary[0..] == binary;
    while i < |binary|
      invariant 0 <= i
      invariant Latin1(binary[..UpTo(binary, i)])
      invariant out + Encode(binary[UpTo(binary, i)..]) == Encode(binary)
    {
      var c0, c1, c2 := CharCodeAt(binary, i), CharCodeAt(binary, i + 1), CharCodeAt(binary, i + 2);
      Latin1Turn(binary, i);
      if c0.value > 255 || (i + 1 < |binary| && c1.value > 255) || (i + 2 < |binary| && c2.value > 255) { return None; }
      EncodeTurn(binary, i, out);
      var quad := EncodeGroup(c0.value, c1, c2);
      out := out + quad;
      i := i + 3;
    }
    assert binary[..|binary|] == binary;
    assert out + Encode([]) == out;
    return Some(out);
  }

  method EncodeGroup(c0: bv32, c1: Option<bv32>, c2: Option<bv32>) returns (quad: Text)
    ensures quad == Quad(c0, c1, c2)
  {
    var n := Group(c0, OrZero(c1), OrZero(c2));
    quad := [Char(Sextet0(n)), Char(Sextet1(n))];
    quad := quad + [if c1.Some? then Char(Sextet2(n)) else EQUALS];
    quad := quad + [if c2.Some? then Char(Sextet3(n)) else EQUALS];
  }

  function UpTo(s: Text, i: nat): nat {
    if i < |s| then i else |s|
  }

  lemma Latin1Turn(s: Text, i: nat)
    requires i < |s| && Latin1(s[..i])
    ensures
      (CharCodeAt(s, i).value > 255 || (i + 1 < |s| && CharCodeAt(s, i + 1).value > 255)
        || (i + 2 < |s| && CharCodeAt(s, i + 2).value > 255)) <==> !Latin1(s[..UpTo(s, i + 3)])
    ensures !Latin1(s[..UpTo(s, i + 3)]) ==> !Latin1(s)
  {
    var front := s[..UpTo(s, i + 3)];
    assert forall k :: 0 <= k < |front| ==> front[k] == s[k];
    assert forall k :: 0 <= k < i ==> s[..i][k] == s[k];
    forall k | 0 <= k < |s| ensures s[k] <= 255 <==> CharCodeAt(s, k).value <= 255 {
      Widens(s[k]);
    }
  }

  lemma Widens(u: Unit)
    ensures u <= 255 <==> u as bv32 <= 255
  {
  }

  /** One turn of the encoder's loop. */
  lemma EncodeTurn(s: Text, i: nat, out: Text)
    requires i < |s|
    ensures out + Encode(s[i..]) == out + QuadAt(s, i) + Encode(s[UpTo(s, i + 3)..])
  {
    QuadShift(s, i);
    var rest := s[i..];
    assert s[UpTo(s, i + 3)..] == rest[if |rest| < 3 then |rest| else 3..];
    Associative(out, QuadAt(s, i), Encode(s[UpTo(s, i + 3)..]));
  }

  lemma Associative(a: Text, b: Text, c: Text)
    ensures a + (b + c) == a + b + c
  {
  }

  // ---- decoder -----------------------------------------------------------------------------

  /** `b64.replace(/[\t\n\f\r ]/g, "")`. */
  function Clean(s: Text): Text {
    if s == [] then [] else (if IsSpace(s[0]) then [] else [s[0]]) + Clean(s[1..])
  }

  /** `clean.replace(/=+$/, "")`. */
  function Strip(s: Text): Text {
    if s != [] && s[|s| - 1] == EQUALS then Strip(s[..|s| - 1]) else s
  }

  /** `value >> 1` on a 32-bit integer: the sign bit stays. */
  function Half(value: bv32): bv32 {
    (value >> 1) | (value & 0x8000_0000)
  }

  /** `value >> n`. */
  function Sar(value: bv32, n: nat): bv32
    decreases n
  {
    if n == 0 then value else Sar(Half(value), n - 1)
  }

  /** `(value << 6) | idx`. */
  function Shifted(value: bv32, idx: bv32): bv32 {
    (value << 6) | idx
  }

  /** The decoding loop on the characters left, from `bits` pending bits at the low end of `value`. */
  function Decode(chars: Text, bits: nat, value: bv32): Option<Text> {
    if chars == [] then Some([])
    else match Index(chars[0])
      case None => None
      case Some(idx) =>
        var value' := Shifted(value, idx);
        if bits + 6 >= 8
        then Prepend((Sar(value', bits + 6 - 8) & 0xff) as Unit, Decode(chars[1..], bits + 6 - 8, value'))
        else Decode(chars[1..], bits + 6, value')
  }

  function Prepend(u: Unit, rest: Option<Text>): Option<Text> {
    match rest case None => None case Some(t) => Some([u] + t)
  }

  function AtobResult(b64: Text): Option<Text> {
    var stripped := Strip(Clean(b64));
    if |stripped| % 4 == 1 then None else Decode(stripped, 0, 0)
  }

  function Append(out: Text, rest: Option<Text>): Option<Text> {
    match rest case None => None case Some(t) => Some(out + t)
  }

  lemma AppendPrepend(out: Text, u: Unit, rest: Option<Text>)
    ensures Append(out, Prepend(u, rest)) == Append(out + [u], rest)
  {
    if rest.Some? { assert out + ([u] + rest.value) == out + [u] + rest.value; }
  }

  /** One turn of the decoder's loop. */
  lemma DecodeTurn(chars: Text, i: nat, bits: nat, value: bv32, out: Text)
    requires i < |chars|
    ensures Index(chars[i]) == None ==> Append(out, Decode(chars[i..], bits, value)) == None
    ensures Index(chars[i]).Some? ==>
      var value' := Shifted(value, Index(chars[i]).value);
      Append(out, Decode(chars[i..], bits, value)) ==
        if bits + 6 >= 8
        then Append(out + [(Sar(value', bits + 6 - 8) & 0xff) as Unit], Decode(chars[i + 1..], bits + 6 - 8, value'))
        else Append(out, Decode(chars[i + 1..], bits + 6, value'))
  {
    var rest := chars[i..];
    assert rest[0] == chars[i] && rest[1..] == chars[i + 1..];
    if Index(chars[i]).Some? && bits + 6 >= 8 {
      var value' := Shifted(value, Index(chars[i]).value);
      AppendPrepend(out, (Sar(value', bits + 6 - 8) & 0xff) as Unit, Decode(rest[1..], bits + 6 - 8, value'));
    }
  }

  /** `atobPolyfill`, with None for the thrown error. */
  method Atob(b64: Text) returns (r: Option<Text>)
    ensures r == AtobResult(b64)
  {
    var stripped := Strip(Clean(b64));
    if |stripped| % 4 == 1 { return None; }
    r := AtobLoop(stripped);
  }

  method AtobLoop(stripped: Text) returns (r: Option<Text>)
    ensures r == Decode(stripped, 0, 0)
  {
    var out: Text := [];
    var bits, value: bv32 := 0, 0;
    var i := 0;
    AppendToNothing(Decode(stripped, 0, 0));
    assert stripped[0..] == stripped;
    while i < |stripped|
      invariant 0 <= i <= |stripped| && 0 <= bits
      invariant Append(out, Decode(stripped[i..], bits, value)) == Decode(stripped, 0, 0)
    {
      var idx := Index(stripped[i]);
      DecodeTurn(stripped, i, bits, value, out);
      if idx.None? { return None; }
      value := Shifted(value, idx.value);
      bits := bits + 6;
      if bits >= 8 {
        bits := bits - 8;
        out := out + [(Sar(value, bits) & 0xff) as Unit];
      }
      i := i + 1;
    }
    assert out + [] == out;
    return Some(out);
  }

  lemma AppendToNothing(rest: Option<Text>)
    ensures Append([], rest) == rest
  {
    if rest.Some? { assert [] + rest.value == rest.value; }
  }

  // ---- round trips -------------------------------------------------------------------------

  lemma SarTwo(value: bv32)
    ensures Sar(value, 2) & 0xff == (value >> 2) & 0xff
  {
    assert Sar(value, 2) == Sar(Half(value), 1) == Half(Half(value));
  }

  lemma SarFour(value: bv32)
    ensures Sar(value, 4) & 0xff == (value >> 4) & 0xff
  {
    var v2 := Half(Half(value));
    assert Sar(value, 4) == Sar(Half(value), 3) == Sar(v2, 2);
    assert Sar(v2, 2) == Sar(Half(v2), 1) == Half(Half(v2));
  }

  /** The bytes that consecutive sextets spell (section 4 of RFC 4648). */
  function Byte0(i0: bv32, i1: bv32): bv32 { ((i0 << 2) | (i1 >> 4)) & 0xff }
  function Byte1(i1: bv32, i2: bv32): bv32 { ((i1 << 4) | (i2 >> 2)) & 0xff }
  function Byte2(i2: bv32, i3: bv32): bv32 { ((i2 << 6) | i3) & 0xff }

  /** However the accumulator overflowed before, the bits taken from it are those of the sextets. */
  lemma TakenByte0(v: bv32, i0: bv32, i1: bv32)
    requires i0 < 64 && i1 < 64
    ensures (Shifted(Shifted(v, i0), i1) >> 4) & 0xff == Byte0(i0, i1)
  {
  }

  lemma TakenByte1(v: bv32, i1: bv32, i2: bv32)
    requires i1 < 64 && i2 < 64
    ensures (Shifted(Shifted(v, i1), i2) >> 2) & 0xff == Byte1(i1, i2)
  {
  }

  lemma TakenByte2(v: bv32, i2: bv32, i3: bv32)
    requires i2 < 64 && i3 < 64
    ensures Shifted(Shifted(v, i2), i3) & 0xff == Byte2(i2, i3)
  {
  }

  /** Sextets of bytes spell those bytes. */
  lemma BytesOfSextets(c0: bv32, c1: bv32, c2: bv32)
    requires c0 <= 255 && c1 <= 255 && c2 <= 255
    ensures
      var n := Group(c0, c1, c2);
      && Byte0(Sextet0(n), Sextet1(n)) == c0
      && Byte1(Sextet1(n), Sextet2(n)) == c1
      && Byte2(Sextet2(n), Sextet3(n)) == c2
  {
  }

  /** Bytes spelled by sextets give those sextets back. */
  lemma SextetOfByte0(i0: bv32, i1: bv32, c1: bv32, c2: bv32)
    requires i0 < 64 && i1 < 64 && c1 <= 255 && c2 <= 255
    ensures Sextet0(Group(Byte0(i0, i1), c1, c2)) == i0
    ensures Sextet1(Group(Byte0(i0, i1), 0, c2)) == i1 <==> i1 & 15 == 0
  {
  }

  lemma SextetOfByte1(i0: bv32, i1: bv32, i2: bv32, c2: bv32)
    requires i0 < 64 && i1 < 64 && i2 < 64 && c2 <= 255
    ensures Sextet1(Group(Byte0(i0, i1), Byte1(i1, i2), c2)) == i1
    ensures Sextet2(Group(Byte0(i0, i1), Byte1(i1, i2), 0)) == i2 <==> i2 & 3 == 0
  {
  }

  lemma SextetOfByte2(c0: bv32, i1: bv32, i2: bv32, i3: bv32)
    requires i1 < 64 && i2 < 64 && i3 < 64 && c0 <= 255
    ensures Sextet2(Group(c0, Byte1(i1, i2), Byte2(i2, i3))) == i2
    ensures Sextet3(Group(c0, Byte1(i1, i2), Byte2(i2, i3))) == i3
  {
  }

  // The sextets and bytes without the characters that carry them.

  ghost predicate Small(a: seq<bv32>, bound: bv32) {
    forall k :: 0 <= k < |a| ==> a[k] < bound
  }

  /** The sextets of a byte sequence, without padding. */
  function EncodeSextets(c: seq<bv32>): seq<bv32> {
    if c == [] then []
    else if |c| == 1 then var n := Group(c[0], 0, 0); [Sextet0(n), Sextet1(n)]
    else if |c| == 2 then var n := Group(c[0], c[1], 0); [Sextet0(n), Sextet1(n), Sextet2(n)]
    else
      var n := Group(c[0], c[1], c[2]);
      [Sextet0(n), Sextet1(n), Sextet2(n), Sextet3(n)] + EncodeSextets(c[3..])
  }

  /** The decoding loop on sextets. */
  function DecodeSextets(ix: seq<bv32>, bits: nat, value: bv32): seq<bv32> {
    if ix == [] then []
    else
      var value' := Shifted(value, ix[0]);
      if bits + 6 >= 8
      then [Sar(value', bits + 6 - 8) & 0xff] + DecodeSextets(ix[1..], bits + 6 - 8, value')
      else DecodeSextets(ix[1..], bits + 6, value')
  }

  lemma DecodeTwo(ix: seq<bv32>, v: bv32) returns (v1: bv32, v2: bv32)
    requires |ix| >= 2 && Small(ix, 64)
    ensures v2 == Shifted(v1, ix[1])
    ensures DecodeSextets(ix, 0, v) == [Byte0(ix[0], ix[1])] + DecodeSextets(ix[2..], 4, v2)
  {
    v1 := Shifted(v, ix[0]);
    v2 := Shifted(v1, ix[1]);
    assert DecodeSextets(ix, 0, v) == DecodeSextets(ix[1..], 6, v1);
    assert ix[1..][1..] == ix[2..];
    SarFour(v2);
    TakenByte0(v, ix[0], ix[1]);
  }

  lemma DecodeThird(i1: bv32, ix: seq<bv32>, v1: bv32, v2: bv32) returns (v3: bv32)
    requires ix != [] && Small(ix, 64) && i1 < 64 && v2 == Shifted(v1, i1)
    ensures v3 == Shifted(v2, ix[0])
    ensures DecodeSextets(ix, 4, v2) == [Byte1(i1, ix[0])] + DecodeSextets(ix[1..], 2, v3)
  {
    v3 := Shifted(v2, ix[0]);
    SarTwo(v3);
    TakenByte1(v1, i1, ix[0]);
  }

  lemma DecodeFourth(i2: bv32, ix: seq<bv32>, v2: bv32, v3: bv32) returns (v4: bv32)
    requires ix != [] && Small(ix, 64) && i2 < 64 && v3 == Shifted(v2, i2)
    ensures DecodeSextets(ix, 2, v3) == [Byte2(i2, ix[0])] + DecodeSextets(ix[1..], 0, v4)
  {
    v4 := Shifted(v3, ix[0]);
    TakenByte2(v2, i2, ix[0]);
    assert Sar(v4, 0) & 0xff == Byte2(i2, ix[0]);
  }

  /** One group of sextets decodes to the bytes it spells, whatever the accumulator held: one byte
    * from two, two from three, three from four or more. */
  lemma DecodeGroup(ix: seq<bv32>, v: bv32) returns (v': bv32)
    requires |ix| >= 2 && Small(ix, 64)
    ensures DecodeSextets(ix, 0, v) ==
      if |ix| == 2 then [Byte0(ix[0], ix[1])]
      else if |ix| == 3 then [Byte0(ix[0], ix[1]), Byte1(ix[1], ix[2])]
      else [Byte0(ix[0], ix[1]), Byte1(ix[1], ix[2]), Byte2(ix[2], ix[3])] + DecodeSextets(ix[4..], 0, v')
  {
    var v1, v2 := DecodeTwo(ix, v);
    v' := v2;
    if |ix| > 2 {
      var v3 := DecodeThird(ix[1], ix[2..], v1, v2);
      assert ix[2..][1..] == ix[3..];
      if |ix| > 3 {
        v' := DecodeFourth(ix[2], ix[3..], v2, v3);
        assert ix[3..][1..] == ix[4..];
      }
    }
  }

  /** The sextets `ix` spell the bytes `c`, in groups of three bytes (section 4 of RFC 4648). */
  ghost predicate Spells(ix: seq<bv32>, c: seq<bv32>) {
    if |c| == 0 then ix == []
    else if |c| == 1 then |ix| == 2 && c[0] == Byte0(ix[0], ix[1])
    else if |c| == 2 then |ix| == 3 && c[0] == Byte0(ix[0], ix[1]) && c[1] == Byte1(ix[1], ix[2])
    else
      && |ix| >= 4 && c[0] == Byte0(ix[0], ix[1]) && c[1] == Byte1(ix[1], ix[2]) && c[2] == Byte2(ix[2], ix[3])
      && Spells(ix[4..], c[3..])
  }

  lemma {:induction false} EncodeSpells(c: seq<bv32>)
    requires Small(c, 256)
    ensures Small(EncodeSextets(c), 64) && Spells(EncodeSextets(c), c)
    decreases |c|
  {
    if |c| == 1 {
      BytesOfSextets(c[0], 0, 0);
    } else if |c| == 2 {
      BytesOfSextets(c[0], c[1], 0);
    } else if |c| >= 3 {
      var n := Group(c[0], c[1], c[2]);
      EncodeSpells(c[3..]);
      BytesOfSextets(c[0], c[1], c[2]);
      SpellsOneMore(Sextet0(n), Sextet1(n), Sextet2(n), Sextet3(n), EncodeSextets(c[3..]), c);
    }
  }

  lemma SpellsOneMore(i0: bv32, i1: bv32, i2: bv32, i3: bv32, rest: seq<bv32>, c: seq<bv32>)
    requires |c| >= 3 && Spells(rest, c[3..]) && i0 < 64 && i1 < 64 && i2 < 64 && i3 < 64 && Small(rest, 64)
    requires c[0] == Byte0(i0, i1) && c[1] == Byte1(i1, i2) && c[2] == Byte2(i2, i3)
    ensures Spells([i0, i1, i2, i3] + rest, c) && Small([i0, i1, i2, i3] + rest, 64)
  {
    hide Byte0, Byte1, Byte2;
    SmallFour(i0, i1, i2, i3, rest);
    hide Small;
    var ix := [i0, i1, i2, i3] + rest;
    assert ix[4..] == rest && ix[0] == i0 && ix[1] == i1 && ix[2] == i2 && ix[3] == i3;
  }

  lemma SmallFour(i0: bv32, i1: bv32, i2: bv32, i3: bv32, rest: seq<bv32>)
    requires i0 < 64 && i1 < 64 && i2 < 64 && i3 < 64 && Small(rest, 64)
    ensures Small([i0, i1, i2, i3] + rest, 64)
  {}

  /** Decoding sextets gives the bytes they spell. */
  lemma {:induction false} DecodeReadsSpelling(ix: seq<bv32>, c: seq<bv32>, v: bv32)
    requires Small(ix, 64) && Spells(ix, c)
    ensures DecodeSextets(ix, 0, v) == c && |ix| % 4 != 1
    decreases |c|
  {
    if c != [] {
      var v' := DecodeGroup(ix, v);
      if |c| >= 3 { DecodeReadsSpelling(ix[4..], c[3..], v'); }
    }
  }

  /** Any number of sextets but one more than a multiple of four spells something. */
  lemma {:induction false} SomethingSpelled(ix: seq<bv32>) returns (c: seq<bv32>)
    requires Small(ix, 64) && |ix| % 4 != 1
    ensures Spells(ix, c) && Small(c, 256) && |c| == |ix| * 3 / 4
    decreases |ix|
  {
    if |ix| == 0 {
      c := [];
    } else if |ix| == 2 {
      c := [Byte0(ix[0], ix[1])];
    } else if |ix| == 3 {
      c := [Byte0(ix[0], ix[1]), Byte1(ix[1], ix[2])];
    } else {
      var rest := SomethingSpelled(ix[4..]);
      c := [Byte0(ix[0], ix[1]), Byte1(ix[1], ix[2]), Byte2(ix[2], ix[3])] + rest;
      assert c[3..] == rest;
    }
  }

  /** The bits of the last sextet that no byte uses are zero. */
  predicate ZeroBits(ix: seq<bv32>) {
    && (|ix| % 4 == 2 ==> ix[|ix| - 1] & 15 == 0)
    && (|ix| % 4 == 3 ==> ix[|ix| - 1] & 3 == 0)
  }

  /** Encoding the bytes spelled gives the sextets back exactly when their unused bits are zero. */
  lemma {:induction false} EncodeOfSpelled(ix: seq<bv32>, c: seq<bv32>)
    requires Small(ix, 64) && Spells(ix, c)
    ensures EncodeSextets(c) == ix <==> ZeroBits(ix)
    decreases |c|
  {
    if |c| == 1 {
      SextetOfByte0(ix[0], ix[1], 0, 0);
    } else if |c| == 2 {
      SextetOfByte0(ix[0], ix[1], c[1], 0);
      SextetOfByte1(ix[0], ix[1], ix[2], 0);
    } else if |c| >= 3 {
      EncodeOfSpelled(ix[4..], c[3..]);
      WholeGroup(ix, c);
      assert ix == ix[..4] + ix[4..];
    }
  }

  lemma WholeGroup(ix: seq<bv32>, c: seq<bv32>)
    requires Small(ix, 64) && |c| >= 3 && Spells(ix, c)
    ensures EncodeSextets(c) == ix[..4] + EncodeSextets(c[3..])
  {
    SextetOfByte0(ix[0], ix[1], c[1], c[2]);
    SextetOfByte1(ix[0], ix[1], ix[2], c[2]);
    SextetOfByte2(c[0], ix[1], ix[2], ix[3]);
  }

  // ---- characters around sextets -----------------------------------------------------------

  predicate Alphabet(s: Text) {
    forall k :: 0 <= k < |s| ==> Index(s[k]).Some?
  }

  function Wide(u: Unit): bv32 { u as bv32 }
  function LowUnit(x: bv32): Unit { (x & 0xff) as Unit }
  function CharOfLow(x: bv32): Unit { Char(x & 63) }

  function Codes(s: Text): seq<bv32> {
    seq(|s|, k requires 0 <= k < |s| => Wide(s[k]))
  }

  function Units(c: seq<bv32>): Text {
    seq(|c|, k requires 0 <= k < |c| => LowUnit(c[k]))
  }

  function Chars(ix: seq<bv32>): Text {
    seq(|ix|, k requires 0 <= k < |ix| => CharOfLow(ix[k]))
  }

  function Indices(s: Text): seq<bv32>
    requires Alphabet(s)
  {
    seq(|s|, k requires 0 <= k < |s| => Index(s[k]).value)
  }

  lemma MaskSmall(x: bv32)
    ensures x < 64 ==> x & 63 == x
    ensures x < 256 ==> x & 0xff == x && (x as Unit) as bv32 == x
    ensures x & 0xff < 256 && ((x & 0xff) as Unit) <= 255
  {
  }

  lemma CharsAndIndices(ix: seq<bv32>)
    requires Small(ix, 64)
    ensures Alphabet(Chars(ix)) && Indices(Chars(ix)) == ix
  {
    forall k | 0 <= k < |ix| ensures Index(Chars(ix)[k]) == Some(ix[k]) {
      MaskSmall(ix[k]);
      IndexOfChar(ix[k]);
    }
  }

  lemma IndicesAndChars(s: Text)
    requires Alphabet(s)
    ensures Small(Indices(s), 64) && Chars(Indices(s)) == s
  {
    forall k | 0 <= k < |s| ensures Indices(s)[k] < 64 && Chars(Indices(s))[k] == s[k] {
      CharOfIndex(s[k]);
      MaskSmall(Indices(s)[k]);
    }
  }

  lemma CodesAndUnits(s: Text)
    requires Latin1(s)
    ensures Small(Codes(s), 256) && Units(Codes(s)) == s
  {
    forall k | 0 <= k < |s| ensures Codes(s)[k] < 256 && Units(Codes(s))[k] == s[k] {
      Widens(s[k]);
      MaskSmall(Codes(s)[k]);
    }
  }

  lemma UnitsAndCodes(c: seq<bv32>)
    requires Small(c, 256)
    ensures Latin1(Units(c)) && Codes(Units(c)) == c
  {
    forall k | 0 <= k < |c| ensures Units(c)[k] <= 255 && Codes(Units(c))[k] == c[k] {
      MaskSmall(c[k]);
    }
  }

  /** The decoder's loop decodes the sextets of its characters, and throws at any other character. */
  lemma {:induction false} DecodeIsSextets(chars: Text, bits: nat, v: bv32)
    ensures Decode(chars, bits, v).Some? <==> Alphabet(chars)
    ensures Alphabet(chars) ==> Decode(chars, bits, v).value == Units(DecodeSextets(Indices(chars), bits, v))
  {
    if chars != [] && Index(chars[0]).Some? {
      var v', rest := Shifted(v, Index(chars[0]).value), chars[1..];
      DecodeIsSextets(rest, if bits + 6 >= 8 then bits + 6 - 8 else bits + 6, v');
      if Alphabet(rest) {
        assert Alphabet(chars);
        assert Indices(chars)[1..] == Indices(rest);
        if bits + 6 >= 8 {
          OneUnit(Sar(v', bits + 6 - 8), DecodeSextets(Indices(rest), bits + 6 - 8, v'));
        }
      } else {
        var k :| 0 <= k < |rest| && Index(rest[k]) == None;
        assert chars[k + 1] == rest[k];
      }
    }
  }

  lemma OneUnit(x: bv32, rest: seq<bv32>)
    ensures Units([x & 0xff] + rest) == [(x & 0xff) as Unit] + Units(rest)
  {
    assert (x & 0xff) & 0xff == x & 0xff;
  }

  /** The padding that completes `n` characters to a multiple of four. */
  function Padding(n: nat): Text {
    if n % 4 == 2 then [EQUALS, EQUALS] else if n % 4 == 3 then [EQUALS] else []
  }

  lemma CharsAppend(a: seq<bv32>, b: seq<bv32>)
    ensures Chars(a + b) == Chars(a) + Chars(b)
  {
  }

  lemma CharsOfSmall(i0: bv32, i1: bv32, i2: bv32, i3: bv32)
    requires i0 < 64 && i1 < 64 && i2 < 64 && i3 < 64
    ensures Chars([i0, i1, i2, i3]) == [Char(i0), Char(i1), Char(i2), Char(i3)]
    ensures Chars([i0, i1, i2]) == [Char(i0), Char(i1), Char(i2)]
    ensures Chars([i0, i1]) == [Char(i0), Char(i1)]
  {
    LowChar(i0);
    LowChar(i1);
    LowChar(i2);
    LowChar(i3);
  }

  lemma LowChar(i: bv32)
    requires i < 64
    ensures CharOfLow(i) == Char(i)
  {
    MaskSmall(i);
  }

  /** The sextets of the first group. */
  function FirstSextets(c: seq<bv32>): seq<bv32>
    requires c != []
  {
    var n := Group(c[0], if |c| > 1 then c[1] else 0, if |c| > 2 then c[2] else 0);
    if |c| == 1 then [Sextet0(n), Sextet1(n)]
    else if |c| == 2 then [Sextet0(n), Sextet1(n), Sextet2(n)]
    else [Sextet0(n), Sextet1(n), Sextet2(n), Sextet3(n)]
  }

  lemma FirstQuad(s: Text)
    requires s != []
    ensures |FirstSextets(Codes(s))| == if |s| < 3 then |s| + 1 else 4
    ensures QuadAt(s, 0) == Chars(FirstSextets(Codes(s))) + Padding(|FirstSextets(Codes(s))|)
  {
    var c := Codes(s);
    var n := Group(c[0], if |c| > 1 then c[1] else 0, if |c| > 2 then c[2] else 0);
    CharsOfSmall(Sextet0(n), Sextet1(n), Sextet2(n), Sextet3(n));
  }

  lemma EncodeUnfold(c: seq<bv32>)
    requires c != []
    ensures EncodeSextets(c) == FirstSextets(c) + EncodeSextets(if |c| < 3 then [] else c[3..])
  {
  }

  /** The encoder's output: the characters of the sextets, then the padding. */
  lemma {:induction false} EncodeIsSextets(s: Text)
    ensures Encode(s) == Chars(EncodeSextets(Codes(s))) + Padding(|EncodeSextets(Codes(s))|)
    decreases |s|
  {
    if s != [] {
      var c, tail := Codes(s), if |s| < 3 then [] else s[3..];
      FirstQuad(s);
      EncodeUnfold(c);
      hide QuadAt, EncodeSextets;
      EncodeIsSextets(tail);
      assert Encode(s) == QuadAt(s, 0) + Encode(tail) by { assert |s| < 3 ==> s[|s|..] == []; }
      assert Codes(tail) == if |c| < 3 then [] else c[3..];
      Padded(FirstSextets(c), EncodeSextets(Codes(tail)));
    }
  }

  /** Padding comes last: a whole first group leaves it to the rest, a partial one has no rest. */
  lemma Padded(first: seq<bv32>, rest: seq<bv32>)
    requires |first| == 4 || rest == []
    ensures Chars(first) + Padding(|first|) + (Chars(rest) + Padding(|rest|)) == Chars(first + rest) + Padding(|first + rest|)
  {
    CharsAppend(first, rest);
  }

  lemma {:induction false} CleanKeeps(s: Text)
    requires forall k :: 0 <= k < |s| ==> !IsSpace(s[k])
    ensures Clean(s) == s
  {
    if s != [] { CleanKeeps(s[1..]); }
  }

  /** The alphabet holds neither whitespace nor the padding character. */
  lemma AlphabetIsPlain(p: Text)
    requires Alphabet(p)
    ensures forall k :: 0 <= k < |p| ==> !IsSpace(p[k])
    ensures p != [] ==> p[|p| - 1] != EQUALS
  {
    forall k | 0 <= k < |p| ensures !IsSpace(p[k]) && p[k] != EQUALS { CharOfIndex(p[k]); }
  }

  lemma StripPadding(p: Text)
    requires p != [] ==> p[|p| - 1] != EQUALS
    ensures Strip(p) == p && Strip(p + [EQUALS]) == p && Strip(p + [EQUALS, EQUALS]) == p
  {
    assert (p + [EQUALS])[..|p|] == p;
    assert (p + [EQUALS, EQUALS])[..|p| + 1] == p + [EQUALS];
  }

  lemma CleanPadding(p: Text, pad: Text)
    requires forall k :: 0 <= k < |p| ==> !IsSpace(p[k])
    requires forall k :: 0 <= k < |pad| ==> pad[k] == EQUALS
    ensures Clean(p + pad) == p + pad
  {
    CleanKeeps(p + pad);
  }

  lemma PlainComesOff(p: Text)
    requires forall k :: 0 <= k < |p| ==> !IsSpace(p[k])
    requires p != [] ==> p[|p| - 1] != EQUALS
    ensures Clean(p + Padding(|p|)) == p + Padding(|p|) && Strip(p + Padding(|p|)) == p
  {
    CleanPadding(p, Padding(|p|));
    StripPadding(p);
    assert p + [] == p;
  }

  /** Whitespace removal and padding removal undo padding. */
  lemma PaddingComesOff(p: Text)
    requires Alphabet(p)
    ensures Clean(p + Padding(|p|)) == p + Padding(|p|) && Strip(p + Padding(|p|)) == p
  {
    AlphabetIsPlain(p);
    PlainComesOff(p);
  }

  // ---- the main results --------------------------------------------------------------------

  /** `atob` inverts `btoa` on every string that `btoa` accepts. */
  lemma AtobOfBtoa(s: Text)
    requires Latin1(s)
    ensures AtobResult(Encode(s)) == Some(s)
  {
    CodesAndUnits(s);
    var ix := EncodeSextets(Codes(s));
    EncodeSpells(Codes(s));
    DecodeReadsSpelling(ix, Codes(s), 0);
    CharsAndIndices(ix);
    EncodeIsSextets(s);
    PaddingComesOff(Chars(ix));
    DecodeIsSextets(Chars(ix), 0, 0);
  }

  /** A canonical base64 string (sections 3.5 and 4 of RFC 4648): characters of the alphabet, the
    * padding that completes a multiple of four, and zero in the bits that no byte uses. */
  predicate Canonical(t: Text) {
    var p := Strip(t);
    Alphabet(p) && |p| % 4 != 1 && t == p + Padding(|p|) && ZeroBits(Indices(p))
  }

  /** What `atob` accepts, without whitespace and padding, it decodes to the bytes spelled. */
  lemma AtobSpells(t: Text) returns (s: Text)
    requires AtobResult(t).Some?
    ensures
      var p := Strip(Clean(t));
      && AtobResult(t) == Some(s) && Latin1(s) && Alphabet(p) && |p| % 4 != 1
      && Spells(Indices(p), Codes(s)) && Small(Indices(p), 64)
  {
    var p := Strip(Clean(t));
    DecodeIsSextets(p, 0, 0);
    IndicesAndChars(p);
    var c := SomethingSpelled(Indices(p));
    DecodeReadsSpelling(Indices(p), c, 0);
    UnitsAndCodes(c);
    s := Units(c);
  }

  /** The decoder accepts a text exactly if what is left of it without white space and trailing "="
    * consists of characters of the alphabet, not one more than a multiple of four. */
  lemma AtobAcceptsIff(t: Text)
    ensures AtobResult(t).Some? <==> (var p := Strip(Clean(t)); Alphabet(p) && |p| % 4 != 1)
  {
    DecodeIsSextets(Strip(Clean(t)), 0, 0);
  }

  /** A space is read as nothing, and nothing is written for that. */
  lemma SpaceExample()
    ensures AtobResult([0x20]) == Some([]) && Encode([]) == [] && !Canonical([0x20])
  {
    assert Clean([0x20]) == [] && Strip([]) == [];
    assert AtobResult([0x20]) == Some([]);
    BtoaOfAtob([0x20]);
  }

  /** `btoa` inverts `atob` exactly on the canonical strings. */
  lemma BtoaOfAtob(t: Text)
    ensures AtobResult(t).Some? && Latin1(AtobResult(t).value) && Encode(AtobResult(t).value) == t <==> Canonical(t)
  {
    if Canonical(t) {
      var p := Strip(t);
      PaddingComesOff(p);
      DecodeIsSextets(p, 0, 0);
    }
    if AtobResult(t).Some? {
      var s := AtobSpells(t);
      var p := Strip(Clean(t));
      var ix := EncodeSextets(Codes(s));
      EncodeIsSextets(s);
      CodesAndUnits(s);
      EncodeSpells(Codes(s));
      DecodeReadsSpelling(ix, Codes(s), 0);
      CharsAndIndices(ix);
      PaddingComesOff(Chars(ix));
      EncodeOfSpelled(Indices(p), Codes(s));
      EncodeOfSpelled(ix, Codes(s));
      IndicesAndChars(p);
    }
  }
}
