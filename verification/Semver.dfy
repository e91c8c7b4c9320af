/** tools/version-guard/semver.ts: parseSemver, comparePre, compareSemver and isMinorBumped.
  *
  * Numbers are IEEE 754 doubles: Number() rounds a decimal numeral to the nearest double, ties to
  * even, and to infinity from 2^1024 on.  All numbers here are integers.
  */
module Semver {
  import opened Prelude
  import opened StableSort
  import opened TagsRecords

  // ---- Number() --------------------------------------------------------------------------------

  const TWO53 := 0x20_0000_0000_0000
  const TWO52 := 0x10_0000_0000_0000
  const TWO1024 :=
    0x10000000000000000000000000000000000000000000000000000000000000000000000000000000000000000000000000000000000000000000000000000000000000000000000000000000000000000000000000000000000000000000000000000000000000000000000000000000000000000000000000000000000000000

  /** The spacing of doubles around n. */
  function Spacing(n: nat): (s: nat)
    ensures s >= 1
  {
    if n < TWO53 then 1 else 2 * Spacing(n / 2)
  }

  /** n rounded to 53 significant bits. */
  function Round(n: nat): nat {
    var s := Spacing(n);
    RoundAt(n / s, n % s, s)
  }

  /** q * s + r rounded to the nearer multiple of s, or between two to that with the even quotient. */
  function RoundAt(q: nat, r: nat, s: nat): nat {
    if 2 * r > s || (2 * r == s && q % 2 == 1) then (q + 1) * s else q * s
  }

  datatype Num = Finite(n: nat) | Infinity

  function ToNumber(n: nat): Num {
    if Round(n) >= TWO1024 then Infinity else Finite(Round(n))
  }

  predicate NumLess(x: Num, y: Num) {
    x.Finite? && (y.Infinity? || x.n < y.n)
  }

  predicate IsDigit(c: char) {
    '0' <= c <= '9'
  }

  predicate IsNumeric(s: string) {
    s != [] && forall i :: 0 <= i < |s| ==> IsDigit(s[i])
  }

  function DigitOf(c: char): nat
    requires IsDigit(c)
  {
    c as int - '0' as int
  }

  /** The number that decimal digits spell. */
  function Value(s: string): nat
    requires forall i :: 0 <= i < |s| ==> IsDigit(s[i])
  {
    if s == [] then 0 else 10 * Value(s[..|s| - 1]) + DigitOf(s[|s| - 1])
  }

  function NumberOf(s: string): Num
    requires IsNumeric(s)
  {
    ToNumber(Value(s))
  }

  // rounding

  lemma {:induction false} SpacingFits(n: nat)
    ensures n / Spacing(n) < TWO53
    ensures n >= TWO53 ==> n / Spacing(n) >= TWO52
  {
    if n >= TWO53 {
      SpacingFits(n / 2);
      HalfDivides(n, Spacing(n / 2));
      if n / 2 < TWO53 { assert n / 2 >= TWO52; }
    }
  }

  lemma HalfDivides(n: nat, s: nat)
    requires s >= 1
    ensures n / (2 * s) == n / 2 / s
  {
    var q := n / 2 / s;
    var r := n / 2 % s;
    assert n / 2 == q * s + r;
    assert n == 2 * (n / 2) + n % 2;
    assert n == q * (2 * s) + (2 * r + n % 2);
    Quotient(n, q, 2 * s, 2 * r + n % 2);
  }

  lemma Quotient(n: nat, q: nat, s: nat, r: nat)
    requires s >= 1 && n == q * s + r && r < s
    ensures n / s == q && n % s == r
  {
    var d := n / s - q;
    assert d * s == r - n % s;
    assert d >= 1 ==> d * s >= s;
    assert d <= -1 ==> d * s + s <= 0;
  }

  lemma SmallIsExact(n: nat)
    requires n < TWO53
    ensures Round(n) == n && ToNumber(n) == Finite(n)
  {}

  /** Rounding moves to one of the two neighbouring multiples of the spacing. */
  lemma RoundBounds(n: nat)
    ensures var s := Spacing(n); n / s * s <= Round(n) <= (n / s + 1) * s
  {
    var s := Spacing(n);
    hide Spacing;
    Scaled(n / s, n / s + 1, s);
  }

  lemma {:induction false} SpacingDoubles(m: nat, n: nat)
    requires m <= n
    ensures Spacing(m) == Spacing(n) || 2 * Spacing(m) <= Spacing(n)
    decreases n
  {
    if m >= TWO53 { SpacingDoubles(m / 2, n / 2); }
  }

  lemma Scaled(a: nat, b: nat, s: nat)
    requires a <= b
    ensures a * s <= b * s
  {}

  lemma QuotientsGrow(m: nat, n: nat, s: nat)
    requires m <= n && s >= 1
    ensures m / s <= n / s
    ensures m / s == n / s ==> m % s <= n % s
  {
    assert m == m / s * s + m % s && n == n / s * s + n % s;
    if m / s >= n / s + 1 { Scaled(n / s + 1, m / s, s); }
  }

  lemma SameSpacing(q1: nat, r1: nat, q2: nat, r2: nat, s: nat)
    requires q1 <= q2 && (q1 == q2 ==> r1 <= r2)
    ensures RoundAt(q1, r1, s) <= RoundAt(q2, r2, s)
  {
    Scaled(q1, q2, s);
    if q1 < q2 { Scaled(q1 + 1, q2, s); }
    Scaled(q2, q2 + 1, s);
  }

  lemma WiderSpacing(m: nat, n: nat)
    requires 2 * Spacing(m) <= Spacing(n)
    ensures Round(m) <= Round(n)
  {
    var sm, sn := Spacing(m), Spacing(n);
    hide Spacing, Round;
    SpacingFits(m);
    SpacingFits(n);
    assert n >= TWO53 by { NarrowIsSmall(n); }
    RoundBounds(m);
    RoundBounds(n);
    Scaled(m / sm + 1, TWO53, sm);
    Scaled(TWO52, n / sn, sn);
  }

  lemma NarrowIsSmall(n: nat)
    requires Spacing(n) >= 2
    ensures n >= TWO53
  {}

  lemma RoundMonotoneAt(m: nat, n: nat, s: nat)
    requires m <= n && s == Spacing(m) == Spacing(n)
    ensures Round(m) <= Round(n)
  {
    QuotientsGrow(m, n, s);
    SameSpacing(m / s, m % s, n / s, n % s, s);
  }

  /** Rounding never reverses an order, though it may merge two numbers. */
  lemma RoundMonotone(m: nat, n: nat)
    requires m <= n
    ensures Round(m) <= Round(n)
  {
    hide Round;
    SpacingDoubles(m, n);
    if Spacing(m) == Spacing(n) {
      RoundMonotoneAt(m, n, Spacing(m));
    } else {
      WiderSpacing(m, n);
    }
  }

  // ---- versions --------------------------------------------------------------------------------

  datatype Version = Version(major: Num, minor: Num, patch: Num, pre: seq<string>)

  /** Number(x) - Number(y) as -1, 0 or 1; the difference of two infinities is not a number, which
    * is neither 0 nor below it. */
  function CompareNumbers(x: Num, y: Num): int {
    if x.Infinity? && y.Infinity? then 1 else if x == y then 0 else if NumLess(x, y) then -1 else 1
  }

  function CompareIds(x: string, y: string): int {
    if IsNumeric(x) && IsNumeric(y) then CompareNumbers(NumberOf(x), NumberOf(y))
    else if IsNumeric(x) != IsNumeric(y) then (if IsNumeric(x) then -1 else 1)
    else if x != y then (if Leq(x, y) then -1 else 1)
    else 0
  }

  /** The comparison from the i-th identifiers on. */
  function CompareFrom(a: seq<string>, b: seq<string>, i: nat): int
    requires i <= |a| && i <= |b|
    decreases |a| - i
  {
    if i == |a| && i == |b| then 0
    else if i == |a| then -1
    else if i == |b| then 1
    else
      var c := CompareIds(a[i], b[i]);
      if c != 0 then c else CompareFrom(a, b, i + 1)
  }

  function ComparedPre(a: seq<string>, b: seq<string>): int {
    if a == [] && b == [] then 0 else if a == [] then 1 else if b == [] then -1 else CompareFrom(a, b, 0)
  }

  method ComparePre(a: seq<string>, b: seq<string>) returns (r: int)
    ensures r == ComparedPre(a, b)
  {
    if |a| == 0 && |b| == 0 { return 0; }
    if |a| == 0 { return 1; }
    if |b| == 0 { return -1; }
    var i := 0;
    while i < if |a| < |b| then |b| else |a|
      invariant i <= |a| && i <= |b| && CompareFrom(a, b, 0) == CompareFrom(a, b, i)
    {
      if i >= |a| { return -1; }
      if i >= |b| { return 1; }
      var x, y := a[i], b[i];
      var xn, yn := IsNumeric(x), IsNumeric(y);
      if xn && yn {
        var p, q := NumberOf(x), NumberOf(y);
        if !(p.Finite? && q.Finite? && p.n == q.n) {
          return if NumLess(p, q) then -1 else 1;
        }
      } else if xn != yn {
        return if xn then -1 else 1;
      } else if x != y {
        return if Leq(x, y) then -1 else 1;
      }
      i := i + 1;
    }
    return 0;
  }

  function Compare(x: Version, y: Version): int {
    if x.major != y.major then (if NumLess(x.major, y.major) then -1 else 1)
    else if x.minor != y.minor then (if NumLess(x.minor, y.minor) then -1 else 1)
    else if x.patch != y.patch then (if NumLess(x.patch, y.patch) then -1 else 1)
    else ComparedPre(x.pre, y.pre)
  }

  predicate IsMinorBumped(x: Version, y: Version) {
    if x.major != y.major then NumLess(y.major, x.major) else NumLess(y.minor, x.minor)
  }

  // ---- a total preorder ------------------------------------------------------------------------

  /** A numeric identifier within the range of doubles, or one that is not numeric. */
  predicate Calm(id: string) {
    IsNumeric(id) ==> NumberOf(id).Finite?
  }

  predicate AllCalm(pre: seq<string>) {
    forall i :: 0 <= i < |pre| ==> Calm(pre[i])
  }

  lemma IdsFlip(x: string, y: string)
    requires Calm(x) && Calm(y)
    ensures CompareIds(y, x) == -CompareIds(x, y) && CompareIds(x, y) in {-1, 0, 1}
  {
    hide ToNumber, Value, IsNumeric;
    LeqTotal(x, y);
    if Leq(x, y) && Leq(y, x) { LeqAntisymmetric(x, y); }
  }

  /** Comparisons that chain: below or equal twice is below or equal, and below if either was. */
  predicate Chains(ab: int, bc: int, ac: int) {
    ab <= 0 && bc <= 0 ==> ac <= 0 && (ac == 0 <==> ab == 0 && bc == 0)
  }

  lemma IdsChain(x: string, y: string, z: string)
    requires Calm(x) && Calm(y) && Calm(z)
    ensures Chains(CompareIds(x, y), CompareIds(y, z), CompareIds(x, z))
  {
    hide ToNumber, Value, IsNumeric;
    if Leq(x, y) && Leq(y, z) {
      LeqTransitive(x, y, z);
      if x == z { LeqAntisymmetric(x, y); }
    }
  }

  lemma {:induction false} FromFlip(a: seq<string>, b: seq<string>, i: nat)
    requires i <= |a| && i <= |b| && AllCalm(a) && AllCalm(b)
    ensures CompareFrom(b, a, i) == -CompareFrom(a, b, i) && CompareFrom(a, b, i) in {-1, 0, 1}
    decreases |a| - i
  {
    hide CompareIds, Calm;
    if i < |a| && i < |b| {
      IdsFlip(a[i], b[i]);
      FromFlip(a, b, i + 1);
    }
  }

  lemma {:induction false} FromChain(a: seq<string>, b: seq<string>, c: seq<string>, i: nat)
    requires i <= |a| && i <= |b| && i <= |c| && AllCalm(a) && AllCalm(b) && AllCalm(c)
    ensures Chains(CompareFrom(a, b, i), CompareFrom(b, c, i), CompareFrom(a, c, i))
    decreases |b| - i
  {
    hide CompareIds, Calm;
    if i < |a| && i < |b| && i < |c| {
      IdsChain(a[i], b[i], c[i]);
      FromChain(a, b, c, i + 1);
    }
  }

  /** A version compares equal to itself exactly when no numeric identifier of it overflows. */
  lemma ReflexiveIff(v: Version)
    ensures Compare(v, v) == 0 <==> AllCalm(v.pre)
  {
    if v.pre != [] { SelfFrom(v.pre, 0); }
  }

  lemma {:induction false} SelfFrom(pre: seq<string>, i: nat)
    requires i <= |pre|
    ensures CompareFrom(pre, pre, i) == 0 <==> forall j :: i <= j < |pre| ==> Calm(pre[j])
    decreases |pre| - i
  {
    if i < |pre| { SelfFrom(pre, i + 1); }
  }

  /** On versions without overflowing identifiers the comparison is sign-antisymmetric and total. */
  lemma CompareFlips(x: Version, y: Version)
    requires AllCalm(x.pre) && AllCalm(y.pre)
    ensures Compare(y, x) == -Compare(x, y) && Compare(x, y) in {-1, 0, 1}
  {
    hide AllCalm, CompareFrom;
    FromFlip(x.pre, y.pre, 0);
  }

  /** And transitive, equality of precedence included. */
  lemma CompareChains(x: Version, y: Version, z: Version)
    requires AllCalm(x.pre) && AllCalm(y.pre) && AllCalm(z.pre)
    ensures Chains(Compare(x, y), Compare(y, z), Compare(x, z))
  {
    hide AllCalm, CompareFrom;
    FromChain(x.pre, y.pre, z.pre, 0);
  }

  // an identifier that overflows

  /** Doubles have no room for this one: a version with it is above itself. */
  lemma OverflowExample()
    ensures exists id :: IsNumeric(id) && !Calm(id)
    ensures exists v: Version :: Compare(v, v) == 1
  {
    var n := 2 * TWO1024;
    var id := Digits(n);
    DigitsAreNumeric(n);
    RoundBounds(n);
    SpacingFits(n);
    hide Round, Spacing, Digits, Value;
    BigRoundsBig(n, Spacing(n));
    assert IsNumeric(id) && !Calm(id);
    var v := Version(Finite(1), Finite(0), Finite(0), [id]);
    assert CompareIds(id, id) == 1;
    assert Compare(v, v) == 1;
  }

  lemma BigRoundsBig(n: nat, s: nat)
    requires s >= 1 && n / s >= 2
    ensures 2 * (n / s * s) >= n
  {
    assert n == n / s * s + n % s;
    Scaled(1, n / s, s);
  }

  function Digits(n: nat): string {
    if n < 10 then [('0' as int + n) as char] else Digits(n / 10) + [('0' as int + n % 10) as char]
  }

  /** Writing a number in decimal and reading it gives it back. */
  lemma {:induction false} DigitsAreNumeric(n: nat)
    ensures IsNumeric(Digits(n)) && Value(Digits(n)) == n
  {
    if n >= 10 {
      DigitsAreNumeric(n / 10);
      assert Digits(n)[..|Digits(n)| - 1] == Digits(n / 10);
    }
  }

  // ---- minor lines -----------------------------------------------------------------------------

  /** isMinorBumped orders by release line: nothing is above itself, above is transitive, and so is
    * being on the same line. */
  lemma MinorBumpIsStrictWeakOrder(x: Version, y: Version, z: Version)
    ensures !IsMinorBumped(x, x)
    ensures IsMinorBumped(x, y) && IsMinorBumped(y, z) ==> IsMinorBumped(x, z)
    ensures SameLine(x, y) && SameLine(y, z) ==> SameLine(x, z)
    ensures SameLine(x, y) <==> x.major == y.major && x.minor == y.minor
  {}

  predicate SameLine(x: Version, y: Version) {
    !IsMinorBumped(x, y) && !IsMinorBumped(y, x)
  }

  /** A bumped version is the later one, whatever its patch and pre-release parts. */
  lemma MinorBumpIsLater(x: Version, y: Version)
    ensures IsMinorBumped(x, y) ==> Compare(x, y) == 1 && Compare(y, x) == -1
  {}
}
