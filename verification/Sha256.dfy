/** tools/shell/polyfill.ts, sha256, against FIPS 180-4.
  *
  * JavaScript numbers are `int`.  The bitwise operators take a number modulo 2^32 and return a
  * signed 32-bit integer, `>>>` an unsigned one; additions are exact until `| 0` truncates them.
  * FIPS words are the integers below 2^32.
  */
module Sha256 {
  import opened Prelude

  const TWO32: int := 0x1_0000_0000

  type Word = x: int | 0 <= x < 0x1_0000_0000
  type Byte = x: int | 0 <= x < 256

  // ---- operations on words (section 3.2 and 4.1.2 of FIPS 180-4) ---------------------------

  datatype BitOp = XorOp | AndOp | OrOp

  function Bit(op: BitOp, x: int, y: int): int {
    match op
    case XorOp => if x == y then 0 else 1
    case AndOp => if x == 1 && y == 1 then 1 else 0
    case OrOp => if x == 1 || y == 1 then 1 else 0
  }

  /** The operation on each of the low `n` bits. */
  function Bitwise(op: BitOp, x: nat, y: nat, n: nat): (r: nat)
    ensures r < Power2(n)
    decreases n
  {
    if n == 0 then 0 else 2 * Bitwise(op, x / 2, y / 2, n - 1) + Bit(op, x % 2, y % 2)
  }

  function Power2(n: nat): nat { if n == 0 then 1 else 2 * Power2(n - 1) }

  lemma Power2Step(n: nat)
    ensures Power2(n + 4) == 16 * Power2(n)
  {
    assert Power2(n + 4) == 2 * Power2(n + 3);
    assert Power2(n + 2) == 2 * Power2(n + 1);
  }

  lemma Power2Of32()
    ensures Power2(WORD_BITS) == TWO32
  {
    Power2Step(28); Power2Step(24); Power2Step(20); Power2Step(16);
    Power2Step(12); Power2Step(8); Power2Step(4); Power2Step(0);
  }

  const WORD_BITS: nat := 32

  function OnWords(op: BitOp, x: Word, y: Word): Word {
    Power2Of32();
    Bitwise(op, x, y, WORD_BITS)
  }

  function Xor(x: Word, y: Word): Word { OnWords(XorOp, x, y) }
  function And(x: Word, y: Word): Word { OnWords(AndOp, x, y) }
  function Or(x: Word, y: Word): Word { OnWords(OrOp, x, y) }
  function Not(x: Word): Word { TWO32 - 1 - x }
  function Plus(x: Word, y: Word): Word { (x + y) % TWO32 }

  function Shr(x: Word, n: nat): Word
    decreases n
  {
    if n == 0 then x else Shr(x / 2, n - 1)
  }

  function Shl(x: Word, n: nat): Word
    decreases n
  {
    if n == 0 then x else Shl(2 * x % TWO32, n - 1)
  }

  function Rotr(n: nat, x: Word): Word
    requires n <= 32
  {
    Or(Shr(x, n), Shl(x, 32 - n))
  }

  function Ch(x: Word, y: Word, z: Word): Word { Xor(And(x, y), And(Not(x), z)) }
  function Maj(x: Word, y: Word, z: Word): Word { Xor(Xor(And(x, y), And(x, z)), And(y, z)) }
  function BigSigma0(x: Word): Word { Xor(Xor(Rotr(2, x), Rotr(13, x)), Rotr(22, x)) }
  function BigSigma1(x: Word): Word { Xor(Xor(Rotr(6, x), Rotr(11, x)), Rotr(25, x)) }
  function SmallSigma0(x: Word): Word { Xor(Xor(Rotr(7, x), Rotr(18, x)), Shr(x, 3)) }
  function SmallSigma1(x: Word): Word { Xor(Xor(Rotr(17, x), Rotr(19, x)), Shr(x, 10)) }

  // ---- JavaScript's operators --------------------------------------------------------------

  function ToUint32(x: int): Word { x % TWO32 }

  function ToInt32(x: int): int {
    var u := x % TWO32;
    if u >= 0x8000_0000 then u - TWO32 else u
  }

  function JsXor(x: int, y: int): int { ToInt32(Xor(ToUint32(x), ToUint32(y))) }
  function JsAnd(x: int, y: int): int { ToInt32(And(ToUint32(x), ToUint32(y))) }
  function JsOr(x: int, y: int): int { ToInt32(Or(ToUint32(x), ToUint32(y))) }
  function JsNot(x: int): int { -ToInt32(x) - 1 }
  function JsShl(x: int, n: nat): int { ToInt32(Shl(ToUint32(x), n)) }
  function JsShr(x: int, n: nat): int { Shr(ToUint32(x), n) }

  lemma Truncated(x: int)
    ensures ToUint32(ToInt32(x)) == ToUint32(x)
  {
  }

  lemma NotIsNot(x: int)
    ensures ToUint32(JsNot(x)) == Not(ToUint32(x))
  {
  }

  lemma PlusIsPlus(x: int, y: int)
    ensures ToUint32(x + y) == Plus(ToUint32(x), ToUint32(y))
  {
  }

  function JsRotr(x: int, n: nat): int
    requires n <= 32
  {
    JsOr(JsShr(x, n), JsShl(x, 32 - n))
  }

  lemma WordIsItself(w: Word)
    ensures ToUint32(w) == w && ToUint32(ToInt32(w)) == w
  {
  }

  lemma OrIsOr(x: int, y: int)
    ensures ToUint32(JsOr(x, y)) == Or(ToUint32(x), ToUint32(y))
  {
    WordIsItself(Or(ToUint32(x), ToUint32(y)));
  }

  lemma XorIsXor(x: int, y: int)
    ensures ToUint32(JsXor(x, y)) == Xor(ToUint32(x), ToUint32(y))
  {
    WordIsItself(Xor(ToUint32(x), ToUint32(y)));
  }

  lemma AndIsAnd(x: int, y: int)
    ensures ToUint32(JsAnd(x, y)) == And(ToUint32(x), ToUint32(y))
  {
    WordIsItself(And(ToUint32(x), ToUint32(y)));
  }

  lemma RotrIsRotr(x: int, n: nat)
    requires n <= 32
    ensures ToUint32(JsRotr(x, n)) == Rotr(n, ToUint32(x))
  {
    WordIsItself(Shr(ToUint32(x), n));
    WordIsItself(Shl(ToUint32(x), 32 - n));
    OrIsOr(JsShr(x, n), JsShl(x, 32 - n));
  }

  // ---- FIPS 180-4 --------------------------------------------------------------------------

  /** Section 4.2.2. */
  const K: seq<Word> :=
    [0x428a2f98, 0x71374491, 0xb5c0fbcf, 0xe9b5dba5, 0x3956c25b, 0x59f111f1, 0x923f82a4, 0xab1c5ed5]
    + [0xd807aa98, 0x12835b01, 0x243185be, 0x550c7dc3, 0x72be5d74, 0x80deb1fe, 0x9bdc06a7, 0xc19bf174]
    + [0xe49b69c1, 0xefbe4786, 0x0fc19dc6, 0x240ca1cc, 0x2de92c6f, 0x4a7484aa, 0x5cb0a9dc, 0x76f988da]
    + [0x983e5152, 0xa831c66d, 0xb00327c8, 0xbf597fc7, 0xc6e00bf3, 0xd5a79147, 0x06ca6351, 0x14292967]
    + [0x27b70a85, 0x2e1b2138, 0x4d2c6dfc, 0x53380d13, 0x650a7354, 0x766a0abb, 0x81c2c92e, 0x92722c85]
    + [0xa2bfe8a1, 0xa81a664b, 0xc24b8b70, 0xc76c51a3, 0xd192e819, 0xd6990624, 0xf40e3585, 0x106aa070]
    + [0x19a4c116, 0x1e376c08, 0x2748774c, 0x34b0bcb5, 0x391c0cb3, 0x4ed8aa4a, 0x5b9cca4f, 0x682e6ff3]
    + [0x748f82ee, 0x78a5636f, 0x84c87814, 0x8cc70208, 0x90befffa, 0xa4506ceb, 0xbef9a3f7, 0xc67178f2]

  lemma SixtyFourConstants()
    ensures |K| == 64
  {
  }

  datatype Hash = Hash(a: Word, b: Word, c: Word, d: Word, e: Word, f: Word, g: Word, h: Word)

  /** Section 5.3.3. */
  const INITIAL: Hash :=
    Hash(0x6a09e667, 0xbb67ae85, 0x3c6ef372, 0xa54ff53a, 0x510e527f, 0x9b05688c, 0x1f83d9ab, 0x5be0cd19)

  function WordAt(bytes: seq<Byte>, i: nat): Word
    requires i + 4 <= |bytes|
  {
    var b0: int, b1: int, b2: int, b3: int := bytes[i], bytes[i + 1], bytes[i + 2], bytes[i + 3];
    0x100_0000 * b0 + 0x1_0000 * b1 + 0x100 * b2 + b3
  }

  /** Section 6.2.2, step 1: the message schedule of a 64-byte block. */
  function Schedule(block: seq<Byte>, t: nat): Word
    requires |block| == 64
  {
    if t < 16 then WordAt(block, 4 * t)
    else
      Plus(Plus(Plus(SmallSigma1(Schedule(block, t - 2)), Schedule(block, t - 7)),
           SmallSigma0(Schedule(block, t - 15))), Schedule(block, t - 16))
  }

  function T1(s: Hash, k: Word, w: Word): Word {
    Plus(Plus(Plus(Plus(s.h, BigSigma1(s.e)), Ch(s.e, s.f, s.g)), k), w)
  }

  function T2(s: Hash): Word {
    Plus(BigSigma0(s.a), Maj(s.a, s.b, s.c))
  }

  /** Section 6.2.2, the body of step 3. */
  function Round(s: Hash, k: Word, w: Word): Hash {
    var t1 := T1(s, k, w);
    Hash(Plus(t1, T2(s)), s.a, s.b, s.c, Plus(s.d, t1), s.e, s.f, s.g)
  }

  const ROUNDS: nat := 64

  /** Steps 2 and 3: the working variables after `t` rounds. */
  function Rounds(h: Hash, block: seq<Byte>, t: nat): Hash
    requires |block| == 64 && t <= 64
  {
    if t == 0 then h else Round(Rounds(h, block, t - 1), K[t - 1], Schedule(block, t - 1))
  }

  /** Step 4. */
  function Compress(h: Hash, block: seq<Byte>): Hash
    requires |block| == 64
  {
    var s := Rounds(h, block, ROUNDS);
    Hash(Plus(h.a, s.a), Plus(h.b, s.b), Plus(h.c, s.c), Plus(h.d, s.d),
         Plus(h.e, s.e), Plus(h.f, s.f), Plus(h.g, s.g), Plus(h.h, s.h))
  }

  predicate Blocks(blocks: seq<seq<Byte>>) {
    forall i :: 0 <= i < |blocks| ==> |blocks[i]| == 64
  }

  /** Section 5.2.1: the message as 64-byte blocks. */
  function Parse(padded: seq<Byte>): (blocks: seq<seq<Byte>>)
    requires |padded| % 64 == 0
    ensures Blocks(blocks) && |blocks| == |padded| / 64
  {
    seq(|padded| / 64, i requires 0 <= i < |padded| / 64 => padded[64 * i..64 * i + 64])
  }

  /** Section 6.2.2: the hash value after the given blocks, each taken in by `compress`. */
  function HashOf(compress: (Hash, seq<Byte>) -> Hash, blocks: seq<seq<Byte>>): Hash {
    if blocks == [] then INITIAL
    else compress(HashOf(compress, blocks[..|blocks| - 1]), blocks[|blocks| - 1])
  }

  /** Compress as a value; every block it meets has 64 bytes. */
  const COMPRESS: (Hash, seq<Byte>) -> Hash :=
    (h: Hash, block: seq<Byte>) => if |block| == 64 then Compress(h, block) else h

  function BigEndian(w: Word): seq<Byte> {
    [w / 0x100_0000, w / 0x1_0000 % 256, w / 256 % 256, w % 256]
  }

  /** The four bytes of a word, read back. */
  lemma BigEndianRead(w: Word)
    ensures WordAt(BigEndian(w), 0) == w
  {}

  function Zeros(n: nat): seq<Byte> {
    seq(n, i => 0)
  }

  /** Section 5.1.1 in whole bytes: a 1 bit, the fewest zero bits that bring the length to 448
    * modulo 512, and the bit length as a 64-bit number. */
  function Padded(m: seq<Byte>): seq<Byte>
  {
    var zeros := (55 - |m|) % 64;
    m + [0x80] + Zeros(zeros) + BigEndian(8 * |m| / TWO32 % TWO32) + BigEndian(8 * |m| % TWO32)
  }

  lemma PaddedLength(m: seq<Byte>)
    ensures |Padded(m)| == |m| + 9 + (55 - |m|) % 64
    ensures |Padded(m)| % 64 == 0
  {
    WholeBlocks(|m|);
  }

  lemma WholeBlocks(n: int)
    ensures (n + 9 + (55 - n) % 64) % 64 == 0
  {
  }

  lemma LeastResidue(n: int, z: nat)
    requires (n + 1 + z) % 64 == 56
    ensures (55 - n) % 64 <= z
  {
    assert z % 64 == (55 - n) % 64;
  }

  /** No smaller number of zero bytes would bring the length to 448 modulo 512 bits. */
  lemma PaddedIsShortest(m: seq<Byte>, zeros: nat)
    requires (|m| + 1 + zeros) % 64 == 56
    ensures |Padded(m)| <= |m| + 9 + zeros
  {
    PaddedLength(m);
    LeastResidue(|m|, zeros);
  }

  function DigestBytes(h: Hash): seq<Byte> {
    BigEndian(h.a) + BigEndian(h.b) + BigEndian(h.c) + BigEndian(h.d)
    + BigEndian(h.e) + BigEndian(h.f) + BigEndian(h.g) + BigEndian(h.h)
  }

  /** The SHA-256 message digest. */
  function Fips180Sha256(m: seq<Byte>): seq<Byte>
  {
    PaddedLength(m);
    DigestBytes(HashOf(COMPRESS, Parse(Padded(m))))
  }

  // ---- the program's functions of numbers --------------------------------------------------

  function JsSmall0(x: int): int { JsXor(JsXor(JsRotr(x, 7), JsRotr(x, 18)), JsShr(x, 3)) }
  function JsSmall1(x: int): int { JsXor(JsXor(JsRotr(x, 17), JsRotr(x, 19)), JsShr(x, 10)) }
  function JsBig0(x: int): int { JsXor(JsXor(JsRotr(x, 2), JsRotr(x, 13)), JsRotr(x, 22)) }
  function JsBig1(x: int): int { JsXor(JsXor(JsRotr(x, 6), JsRotr(x, 11)), JsRotr(x, 25)) }
  function JsCh(e: int, f: int, g: int): int { JsXor(JsAnd(e, f), JsAnd(JsNot(e), g)) }
  function JsMaj(a: int, b: int, c: int): int { JsXor(JsXor(JsAnd(a, b), JsAnd(a, c)), JsAnd(b, c)) }

  lemma XorThree(x: int, y: int, z: int)
    ensures ToUint32(JsXor(JsXor(x, y), z)) == Xor(Xor(ToUint32(x), ToUint32(y)), ToUint32(z))
  {
    XorIsXor(x, y);
    XorIsXor(JsXor(x, y), z);
  }

  lemma SmallSigmas(x: int)
    ensures ToUint32(JsSmall0(x)) == SmallSigma0(ToUint32(x))
    ensures ToUint32(JsSmall1(x)) == SmallSigma1(ToUint32(x))
  {
    RotrIsRotr(x, 7); RotrIsRotr(x, 18); RotrIsRotr(x, 17); RotrIsRotr(x, 19);
    WordIsItself(Shr(ToUint32(x), 3));
    WordIsItself(Shr(ToUint32(x), 10));
    XorThree(JsRotr(x, 7), JsRotr(x, 18), JsShr(x, 3));
    XorThree(JsRotr(x, 17), JsRotr(x, 19), JsShr(x, 10));
  }

  lemma BigSigmas(x: int)
    ensures ToUint32(JsBig0(x)) == BigSigma0(ToUint32(x))
    ensures ToUint32(JsBig1(x)) == BigSigma1(ToUint32(x))
  {
    RotrIsRotr(x, 2); RotrIsRotr(x, 13); RotrIsRotr(x, 22);
    RotrIsRotr(x, 6); RotrIsRotr(x, 11); RotrIsRotr(x, 25);
    XorThree(JsRotr(x, 2), JsRotr(x, 13), JsRotr(x, 22));
    XorThree(JsRotr(x, 6), JsRotr(x, 11), JsRotr(x, 25));
  }

  lemma ChIsCh(e: int, f: int, g: int)
    ensures ToUint32(JsCh(e, f, g)) == Ch(ToUint32(e), ToUint32(f), ToUint32(g))
  {
    NotIsNot(e);
    AndIsAnd(e, f);
    AndIsAnd(JsNot(e), g);
    XorIsXor(JsAnd(e, f), JsAnd(JsNot(e), g));
  }

  lemma MajIsMaj(a: int, b: int, c: int)
    ensures ToUint32(JsMaj(a, b, c)) == Maj(ToUint32(a), ToUint32(b), ToUint32(c))
  {
    AndIsAnd(a, b);
    AndIsAnd(a, c);
    AndIsAnd(b, c);
    XorThree(JsAnd(a, b), JsAnd(a, c), JsAnd(b, c));
  }

  /** One truncation after an exact sum is the same as word additions in any grouping. */
  lemma SumOfFour(p: int, q: int, r: int, s: int)
    ensures ToUint32(ToInt32(p + q + r + s)) ==
      Plus(Plus(Plus(ToUint32(s), ToUint32(r)), ToUint32(q)), ToUint32(p))
  {
    Truncated(p + q + r + s);
    PlusIsPlus(s, r);
    PlusIsPlus(s + r, q);
    PlusIsPlus(s + r + q, p);
  }

  lemma SumOfFive(p: int, q: int, r: int, s: int, t: int)
    ensures ToUint32(ToInt32(p + q + r + s + t)) ==
      Plus(Plus(Plus(Plus(ToUint32(p), ToUint32(q)), ToUint32(r)), ToUint32(s)), ToUint32(t))
  {
    Truncated(p + q + r + s + t);
    PlusIsPlus(p, q);
    PlusIsPlus(p + q, r);
    PlusIsPlus(p + q + r, s);
    PlusIsPlus(p + q + r + s, t);
  }

  lemma SumOfTwo(p: int, q: int)
    ensures ToUint32(ToInt32(p + q)) == Plus(ToUint32(p), ToUint32(q))
  {
    Truncated(p + q);
    PlusIsPlus(p, q);
  }

  // ---- the program -------------------------------------------------------------------------

  /** The eight working variables, or the eight hash values, as JavaScript numbers. */
  datatype Vars = Vars(a: int, b: int, c: int, d: int, e: int, f: int, hh: int, hi: int)

  function Words(v: Vars): Hash {
    Hash(ToUint32(v.a), ToUint32(v.b), ToUint32(v.c), ToUint32(v.d),
         ToUint32(v.e), ToUint32(v.f), ToUint32(v.hh), ToUint32(v.hi))
  }

  method JsRound(v: Vars, k: Word, w: int) returns (v': Vars)
    ensures Words(v') == Round(Words(v), k, ToUint32(w))
  {
    var S1 := JsBig1(v.e);
    var ch := JsCh(v.e, v.f, v.hh);
    var temp1 := ToInt32(v.hi + S1 + ch + k + w);
    var S0 := JsBig0(v.a);
    var maj := JsMaj(v.a, v.b, v.c);
    var temp2 := ToInt32(S0 + maj);
    BigSigmas(v.e);
    BigSigmas(v.a);
    ChIsCh(v.e, v.f, v.hh);
    MajIsMaj(v.a, v.b, v.c);
    SumOfFive(v.hi, S1, ch, k, w);
    WordIsItself(k);
    SumOfTwo(S0, maj);
    SumOfTwo(v.d, temp1);
    SumOfTwo(temp1, temp2);
    v' := Vars(ToInt32(temp1 + temp2), v.a, v.b, v.c, ToInt32(v.d + temp1), v.e, v.f, v.hh);
  }

  method JsAddVars(h: Vars, v: Vars) returns (r: Vars)
    ensures Words(r) ==
      var x, y := Words(h), Words(v);
      Hash(Plus(x.a, y.a), Plus(x.b, y.b), Plus(x.c, y.c), Plus(x.d, y.d),
           Plus(x.e, y.e), Plus(x.f, y.f), Plus(x.g, y.g), Plus(x.h, y.h))
  {
    SumOfTwo(h.a, v.a); SumOfTwo(h.b, v.b); SumOfTwo(h.c, v.c); SumOfTwo(h.d, v.d);
    SumOfTwo(h.e, v.e); SumOfTwo(h.f, v.f); SumOfTwo(h.hh, v.hh); SumOfTwo(h.hi, v.hi);
    r := Vars(ToInt32(h.a + v.a), ToInt32(h.b + v.b), ToInt32(h.c + v.c), ToInt32(h.d + v.d),
              ToInt32(h.e + v.e), ToInt32(h.f + v.f), ToInt32(h.hh + v.hh), ToInt32(h.hi + v.hi));
  }

  method JsScheduleWord(w16: int, w15: int, w7: int, w2: int) returns (word: int)
    ensures ToUint32(word) ==
      Plus(Plus(Plus(SmallSigma1(ToUint32(w2)), ToUint32(w7)), SmallSigma0(ToUint32(w15))), ToUint32(w16))
  {
    var s0 := JsSmall0(w15);
    var s1 := JsSmall1(w2);
    SmallSigmas(w15);
    SmallSigmas(w2);
    SumOfFour(w16, s0, w7, s1);
    word := ToInt32(w16 + s0 + w7 + s1);
  }

  /** The first `n` entries of `w` carry the schedule of the block. */
  ghost predicate Carries(w: seq<int>, block: seq<Byte>, n: nat)
    requires |block| == 64
  {
    n <= |w| && forall t :: 0 <= t < n ==> ToUint32(w[t]) == Schedule(block, t)
  }

  lemma WordInSlice(bytes: seq<Byte>, off: nat, block: seq<Byte>, at: nat)
    requires off + 64 <= |bytes| && block == bytes[off..off + 64] && at + 4 <= 64
    ensures WordAt(bytes, off + at) == WordAt(block, at)
  {
    assert block[at] == bytes[off + at] && block[at + 1] == bytes[off + at + 1];
    assert block[at + 2] == bytes[off + at + 2] && block[at + 3] == bytes[off + at + 3];
  }

  method LoadWords(w: array<int>, view: array<Byte>, off: nat)
    requires w.Length == 64 && off + 64 <= view.Length
    modifies w
    ensures Carries(w[..], view[off..off + 64], 16)
  {
    ghost var block := view[off..off + 64];
    for i := 0 to 16
      invariant Carries(w[..], block, i)
    {
      var word := WordAt(view[..], off + i * 4);
      WordInSlice(view[..], off, block, 4 * i);
      WordIsItself(word);
      w[i] := ToInt32(word);
    }
  }

  method ExtendSchedule(w: array<int>, ghost block: seq<Byte>)
    requires w.Length == 64 && |block| == 64 && Carries(w[..], block, 16)
    modifies w
    ensures Carries(w[..], block, 64)
  {
    for i := 16 to 64
      invariant Carries(w[..], block, i)
    {
      label Before:
      var word := JsScheduleWord(w[i - 16], w[i - 15], w[i - 7], w[i - 2]);
      NextWord(w[..], block, i);
      CarriesMore(w[..], block, i, word);
      w[i] := word;
      assert w[..] == old@Before(w[..])[i := word];
    }
  }

  lemma CarriesMore(w: seq<int>, block: seq<Byte>, i: nat, word: int)
    requires |block| == 64 && i < |w| && Carries(w, block, i) && ToUint32(word) == Schedule(block, i)
    ensures Carries(w[i := word], block, i + 1)
  {
  }

  lemma NextWord(w: seq<int>, block: seq<Byte>, i: nat)
    requires |block| == 64 && 16 <= i < |w| && Carries(w, block, i)
    ensures Schedule(block, i) ==
      Plus(Plus(Plus(SmallSigma1(ToUint32(w[i - 2])), ToUint32(w[i - 7])), SmallSigma0(ToUint32(w[i - 15]))), ToUint32(w[i - 16]))
  {
  }

  method JsRounds(h: Vars, w: array<int>, ghost block: seq<Byte>) returns (v: Vars)
    requires w.Length == 64 && |block| == 64 && Carries(w[..], block, 64)
    ensures Words(v) == Rounds(Words(h), block, ROUNDS)
  {
    SixtyFourConstants();
    v := h;
    for i := 0 to ROUNDS
      invariant Words(v) == Rounds(Words(h), block, i)
    {
      assert ToUint32(w[..][i]) == Schedule(block, i);
      v := JsRound(v, K[i], w[i]);
    }
  }

  method JsCompress(h: Vars, w: array<int>, view: array<Byte>, off: nat, ghost block: seq<Byte>) returns (r: Vars)
    requires w.Length == 64 && off + 64 <= view.Length && block == view[off..off + 64]
    modifies w
    ensures Words(r) == Compress(Words(h), block)
  {
    LoadWords(w, view, off);
    ExtendSchedule(w, block);
    var v := JsRounds(h, w, block);
    r := JsAddVars(h, v);
  }

  ghost predicate Agrees(compress: (Hash, seq<Byte>) -> Hash, h: Hash, block: seq<Byte>) {
    |block| == 64 ==> compress(h, block) == Compress(h, block)
  }

  /** `compress` is the compression of a 64-byte block. */
  ghost predicate IsCompress(compress: (Hash, seq<Byte>) -> Hash) {
    forall h, block :: Agrees(compress, h, block)
  }

  lemma AgreesHere(compress: (Hash, seq<Byte>) -> Hash, h: Hash, block: seq<Byte>, r: Hash)
    requires IsCompress(compress) && |block| == 64 && r == Compress(h, block)
    ensures r == compress(h, block)
  {
    hide Compress;
    assert Agrees(compress, h, block);
  }

  /** The body of the block loop. */
  method BlockTurn(h: Vars, w: array<int>, view: array<Byte>, off: nat,
      ghost block: seq<Byte>, ghost compress: (Hash, seq<Byte>) -> Hash)
    returns (r: Vars)
    requires w.Length == 64 && off + 64 <= view.Length && block == view[off..off + 64] && IsCompress(compress)
    modifies w
    ensures Words(r) == compress(Words(h), block)
  {
    hide Compress;
    r := JsCompress(h, w, view, off, block);
    AgreesHere(compress, Words(h), block, Words(r));
  }

  // ---- padding, the block loop and the output ----------------------------------------------

  /** `setUint32`, big-endian. */
  method SetUint32(view: array<Byte>, pos: nat, x: int)
    requires pos + 4 <= view.Length
    modifies view
    ensures view[..] == old(view[..pos]) + BigEndian(ToUint32(x)) + old(view[pos + 4..])
    ensures view[..pos + 4] == old(view[..pos]) + BigEndian(ToUint32(x))
  {
    var u := ToUint32(x);
    view[pos], view[pos + 1], view[pos + 2], view[pos + 3] := u / 0x100_0000, u / 0x1_0000 % 256, u / 256 % 256, u % 256;
  }

  /** The size asked for, in 32-bit arithmetic: `((n + 9 + 63) >> 6) << 6`. */
  function PaddedSize(n: nat): int {
    ToInt32(ToInt32(n + 9 + 63) / 64 * 64)
  }

  /** The size is right below 2^31 - 72, and smaller than the message from there on, where the
    * typed array or its `set` throws. */
  lemma PaddedSizeExact(n: nat)
    ensures n + 72 < 0x8000_0000 ==> PaddedSize(n) == n + 9 + (55 - n) % 64
    ensures n + 72 >= 0x8000_0000 ==> PaddedSize(n) < n
  {
    var x := ToInt32(n + 9 + 63);
    assert x - 63 <= x / 64 * 64 <= x;
    if n + 72 < 0x8000_0000 {
      assert x == n + 72;
      RoundedDown(n);
    } else {
      assert x <= n + 72 - TWO32;
    }
  }

  lemma RoundedDown(n: nat)
    ensures (n + 72) / 64 * 64 == n + 9 + (55 - n) % 64
  {
    WholeBlocks(n);
  }

  /** The message in a zeroed array with the 1 bit after it and its bit length at the end; None if
    * the allocation or `set` throws. */
  method PadMessage(bytes: seq<Byte>) returns (r: Option<array<Byte>>)
    ensures r.Some? <==> |bytes| + 72 < 0x8000_0000
    ensures r.Some? ==> fresh(r.value) && r.value[..] == Padded(bytes)
  {
    var bitLenLow := ToUint32(|bytes| * 8);
    var bitLenHigh := |bytes| * 8 / TWO32;
    var size := PaddedSize(|bytes|);
    PaddedSizeExact(|bytes|);
    if size < |bytes| { return None; }
    var view := CopyWithOne(bytes, size);
    SetLength(view, bitLenHigh, bitLenLow);
    PaddedParts(bytes, size - |bytes| - 9, bitLenHigh, bitLenLow);
    return Some(view);
  }

  lemma PaddedParts(m: seq<Byte>, zeros: nat, high: int, low: int)
    requires zeros == (55 - |m|) % 64 && high == |m| * 8 / TWO32 && low == ToUint32(|m| * 8)
    ensures Padded(m) == m + [0x80] + Zeros(zeros) + BigEndian(ToUint32(high)) + BigEndian(ToUint32(low))
  {
    WordIsItself(low);
  }

  /** The length fields in the last eight bytes. */
  method SetLength(view: array<Byte>, bitLenHigh: int, bitLenLow: int)
    requires view.Length >= 8
    modifies view
    ensures view[..] == old(view[..view.Length - 8]) + BigEndian(ToUint32(bitLenHigh)) + BigEndian(ToUint32(bitLenLow))
  {
    SetUint32(view, view.Length - 4, bitLenLow);
    assert view[..view.Length - 8] == old(view[..view.Length - 8]);
    assert view[view.Length - 4..] == BigEndian(ToUint32(bitLenLow));
    SetUint32(view, view.Length - 8, bitLenHigh);
  }

  /** The zeroed array, `set`, and the 1 bit. */
  method CopyWithOne(bytes: seq<Byte>, size: nat) returns (view: array<Byte>)
    requires |bytes| + 9 <= size
    ensures fresh(view) && view.Length == size
    ensures view[..size - 8] == bytes + [0x80] + Zeros(size - |bytes| - 9)
  {
    view := new Byte[size](i => 0);
    forall i | 0 <= i < |bytes| { view[i] := bytes[i]; }
    view[|bytes|] := 0x80;
  }

  /** Every block of the padded message in turn. */
  method HashLoop(view: array<Byte>, ghost compress: (Hash, seq<Byte>) -> Hash) returns (h: Vars)
    requires view.Length % 64 == 0 && IsCompress(compress)
    ensures Words(h) == HashOf(compress, Parse(view[..]))
  {
    h := Vars(0x6a09e667, 0xbb67ae85, 0x3c6ef372, 0xa54ff53a, 0x510e527f, 0x9b05688c, 0x1f83d9ab, 0x5be0cd19);
    var w := new int[64];
    var off := 0;
    ghost var blocks := Parse(view[..]);
    ghost var n := 0;
    while off < view.Length
      invariant off == 64 * n && 0 <= n <= |blocks|
      invariant Words(h) == HashOf(compress, blocks[..n])
      invariant fresh(w) && view[..] == old(view[..])
    {
      NextBlock(compress, blocks, n);
      assert blocks[n] == view[off..off + 64];
      h := BlockTurn(h, w, view, off, blocks[n], compress);
      off, n := off + 64, n + 1;
    }
    assert blocks[..n] == blocks;
  }

  lemma NextBlock(compress: (Hash, seq<Byte>) -> Hash, blocks: seq<seq<Byte>>, n: nat)
    requires n < |blocks|
    ensures HashOf(compress, blocks[..n + 1]) == compress(HashOf(compress, blocks[..n]), blocks[n])
  {
    assert blocks[..n + 1][..n] == blocks[..n];
  }

  method WriteHash(h: Vars) returns (out: array<Byte>)
    ensures out[..] == DigestBytes(Words(h))
  {
    out := new Byte[32](i => 0);
    WriteHalf(out, 0, h.a, h.b, h.c, h.d);
    WriteHalf(out, 16, h.e, h.f, h.hh, h.hi);
    assert out[..] == out[..32];
  }

  method WriteHalf(out: array<Byte>, pos: nat, x0: int, x1: int, x2: int, x3: int)
    requires pos + 16 <= out.Length
    modifies out
    ensures out[..pos + 16] ==
      old(out[..pos]) + BigEndian(ToUint32(x0)) + BigEndian(ToUint32(x1)) + BigEndian(ToUint32(x2)) + BigEndian(ToUint32(x3))
  {
    SetUint32(out, pos, x0);
    SetUint32(out, pos + 4, x1);
    SetUint32(out, pos + 8, x2);
    SetUint32(out, pos + 12, x3);
  }

  /** `sha256`: the FIPS 180-4 digest of every message shorter than 2^31 - 72 bytes; beyond, a
    * RangeError. */
  method Sha256(bytes: seq<Byte>) returns (r: Option<seq<Byte>>)
    ensures r == if |bytes| + 72 < 0x8000_0000 then Some(Fips180Sha256(bytes)) else None
  {
    var withOne := PadMessage(bytes);
    if withOne.None? { return None; }
    PaddedLength(bytes);
    var h := HashLoop(withOne.value, COMPRESS);
    var out := WriteHash(h);
    return Some(out[..]);
  }
}
