/** JavaScript numbers: IEEE 754 doubles by their exact values, and the bits of single and double
  * precision that typed views read and write.
  */
module Doubles {
  import opened Prelude
  import opened Semver

  /** A finite double is k times 2^-1074, with a sign. */
  datatype Double = NaN | Infinite(neg: bool) | Fin(neg: bool, k: nat)

  /** A binary format: p significands to each exponent, the exponent field of all ones, and the
    * smallest positive number, in units of 2^-1074. */
  datatype Format = Format(p: nat, top: nat, unit: nat)

  ghost predicate Fine(f: Format) {
    f.p >= 1 && f.unit >= 1
  }

  /** 2^-149 and 1, in units of 2^-1074. */
  const TWO925: nat :=
    0x2000000000000000000000000000000000000000000000000000000000000000000000000000000000000000000000000000000000000000000000000000000000000000000000000000000000000000000000000000000000000000000000000000000000000000000000000000000000000000
  const ONE: nat :=
    0x40000000000000000000000000000000000000000000000000000000000000000000000000000000000000000000000000000000000000000000000000000000000000000000000000000000000000000000000000000000000000000000000000000000000000000000000000000000000000000000000000000000000000000000000000000

  const F32: Format := Format(0x80_0000, 0xff, TWO925)
  const F64: Format := Format(0x10_0000_0000_0000, 0x7ff, 1)

  function Pow2(n: nat): (r: nat)
    ensures r >= 1
  {
    if n == 0 then 1 else 2 * Pow2(n - 1)
  }

  /** The bit above exponent and significand. */
  function SignBit(f: Format): nat {
    f.p * (f.top + 1)
  }

  // reading bits

  function Significand(f: Format, b: nat): nat
    requires Fine(f)
  {
    if b < f.p then b else f.p + b % f.p
  }

  function Shift(f: Format, b: nat): nat
    requires Fine(f)
  {
    if b < f.p then 0 else b / f.p - 1
  }

  function Decode(f: Format, bits: nat): Double
    requires Fine(f)
  {
    var neg, b := bits >= SignBit(f), if bits >= SignBit(f) then bits - SignBit(f) else bits;
    if b > f.top * f.p then NaN
    else if b == f.top * f.p then Infinite(neg)
    else Fin(neg, Significand(f, b) * (Pow2(Shift(f, b)) * f.unit))
  }

  // writing bits

  /** How often k must be halved until it is a significand. */
  function Exponent(k: nat, p: nat): nat
    requires p >= 1
  {
    if k < 2 * p then 0 else 1 + Exponent(k / 2, p)
  }

  /** The whole number nearest to k / s, the even one of two. */
  function Nearest(k: nat, s: nat): nat
    requires s >= 1
  {
    if 2 * (k % s) > s || (2 * (k % s) == s && k / s % 2 == 1) then k / s + 1 else k / s
  }

  /** Exponent and significand of k, rounded to the format; too large numbers become infinite. */
  function Magnitude(f: Format, k: nat): nat
    requires Fine(f)
  {
    var x := Exponent(k / f.unit, f.p);
    Pow2Scales(x, f.unit);
    var b := x * f.p + Nearest(k, Pow2(x) * f.unit);
    if b > f.top * f.p then f.top * f.p else b
  }

  lemma Pow2Scales(x: nat, unit: nat)
    requires unit >= 1
    ensures Pow2(x) * unit >= 1
  {}

  /** The bits written for a number, nan being those that the engine writes for NaN. */
  function Encode(f: Format, d: Double, nan: nat): nat
    requires Fine(f)
  {
    match d
    case NaN => nan
    case Infinite(neg) => (if neg then SignBit(f) else 0) + f.top * f.p
    case Fin(neg, k) => (if neg then SignBit(f) else 0) + Magnitude(f, k)
  }

  // reading back

  lemma {:induction false} ExponentOfShifted(m: nat, x: nat, p: nat)
    requires p >= 1 && m < 2 * p && (x > 0 ==> m >= p)
    ensures Exponent(m * Pow2(x), p) == x
  {
    if x == 0 {
      assert m * Pow2(0) == m;
    } else {
      var k := m * Pow2(x);
      assert k == 2 * (m * Pow2(x - 1)) by { Doubled(m, Pow2(x - 1)); }
      AtLeast(m, Pow2(x - 1));
      ExponentOfShifted(m, x - 1, p);
    }
  }

  lemma Doubled(m: nat, q: nat)
    ensures m * (2 * q) == 2 * (m * q)
  {}

  lemma AtLeast(m: nat, q: nat)
    requires q >= 1
    ensures m * q >= m
  {}

  lemma NearestOfMultiple(m: nat, s: nat)
    requires s >= 1
    ensures Nearest(m * s, s) == m
  {
    Quotient(m * s, m, s, 0);
  }

  /** The fields of b, taken apart and put together. */
  lemma FieldsJoin(f: Format, b: nat)
    requires Fine(f)
    ensures Shift(f, b) * f.p + Significand(f, b) == b
    ensures Significand(f, b) < 2 * f.p && (Shift(f, b) > 0 ==> Significand(f, b) >= f.p)
  {
    if b >= f.p {
      var q := b / f.p;
      assert b == q * f.p + b % f.p;
      assert (q - 1) * f.p == q * f.p - f.p;
    }
  }

  lemma MagnitudeOfRead(f: Format, b: nat)
    requires Fine(f) && b < f.top * f.p
    ensures Magnitude(f, Significand(f, b) * (Pow2(Shift(f, b)) * f.unit)) == b
  {
    hide Significand, Shift, Pow2, Exponent, Nearest;
    var m, x := Significand(f, b), Shift(f, b);
    FieldsJoin(f, b);
    ExponentOfShifted(m, x, f.p);
    Pow2Scales(x, f.unit);
    NearestOfMultiple(m, Pow2(x) * f.unit);
    Regroup(m, Pow2(x), f.unit);
    Quotient(m * (Pow2(x) * f.unit), m * Pow2(x), f.unit, 0);
  }

  lemma Regroup(a: nat, b: nat, c: nat)
    ensures a * (b * c) == (a * b) * c
  {}

  /** Bits that are not a NaN pattern come back as they were. */
  lemma EncodeDecode(f: Format, bits: nat, nan: nat)
    requires Fine(f) && bits < 2 * SignBit(f)
    ensures Encode(f, Decode(f, bits), nan) == if Decode(f, bits).NaN? then nan else bits
  {
    hide Magnitude, Significand, Shift, Pow2;
    var b := if bits >= SignBit(f) then bits - SignBit(f) else bits;
    if b < f.top * f.p { MagnitudeOfRead(f, b); }
  }

  // ---- integers as numbers ---------------------------------------------------------------------

  /** Number() of the decimal numeral of n. */
  function FromInt(n: int): Double {
    var a: nat := if n < 0 then -n else n;
    match ToNumber(a)
    case Finite(r) => Fin(n < 0, r * ONE)
    case Infinity => Infinite(n < 0)
  }

  /** The operator ===: NaN equals nothing and the two zeros are equal. */
  predicate Same(x: Double, y: Double) {
    !x.NaN? && (x == y || (x.Fin? && y.Fin? && x.k == 0 && y.k == 0))
  }

  lemma IntsSame(m: int, n: int)
    requires -TWO53 < m < TWO53 && -TWO53 < n < TWO53
    ensures Same(FromInt(m), FromInt(n)) <==> m == n
  {
    SmallIsExact(if m < 0 then -m else m);
    SmallIsExact(if n < 0 then -n else n);
    hide ToNumber;
  }
}
