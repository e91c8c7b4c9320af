/** UTF-16 code units, as a JavaScript string holds them. */
module CodeUnits {
  import opened Prelude

  type Unit = bv16
  type Text = seq<Unit>

  const REPLACEMENT: Unit := 0xfffd

  predicate IsHigh(u: Unit) { 0xd800 <= u <= 0xdbff }

  predicate IsLow(u: Unit) { 0xdc00 <= u <= 0xdfff }

  predicate IsScalar(v: bv32) {
    v <= 0x10ffff && !(0xd800 <= v <= 0xdfff)
  }

  /** The code units of a scalar value. */
  function Utf16(v: bv32): Text {
    if v <= 0xffff then [(v & 0xffff) as Unit]
    else [HighOf(v) as Unit, LowOf(v) as Unit]
  }

  function HighOf(v: bv32): (u: bv32)
    ensures u <= 0xffff
  {
    (0xd800 + ((v - 0x10000) >> 10)) & 0xffff
  }

  function LowOf(v: bv32): (u: bv32)
    ensures u <= 0xffff
  {
    (0xdc00 + ((v - 0x10000) & 0x3ff)) & 0xffff
  }

  /** Position `i` holds a surrogate with no partner beside it. */
  predicate Unpaired(text: Text, i: nat)
    requires i < |text|
  {
    || (IsHigh(text[i]) && !(i + 1 < |text| && IsLow(text[i + 1])))
    || (IsLow(text[i]) && !(i > 0 && IsHigh(text[i - 1])))
  }

  predicate WellFormed(text: Text) {
    forall i :: 0 <= i < |text| ==> !Unpaired(text, i)
  }

  /** `text` with U+FFFD in place of every unpaired surrogate. */
  function Repaired(text: Text): Text {
    seq(|text|, i requires 0 <= i < |text| => if Unpaired(text, i) then REPLACEMENT else text[i])
  }

  /** `charCodeAt`, with None for the NaN beyond the end. */
  function CharCodeAt(text: Text, i: nat): Option<bv32> {
    if i < |text| then Some(text[i] as bv32) else None
  }

  lemma CharCodeShift(text: Text, i: nat, k: nat)
    requires i <= |text|
    ensures CharCodeAt(text[i..], k) == CharCodeAt(text, i + k)
  {
    if i + k < |text| { assert text[i..][k] == text[i + k]; }
  }

  lemma UnitRanges(u: Unit)
    ensures IsHigh(u) <==> 0xd800 <= u as bv32 <= 0xdbff
    ensures IsLow(u) <==> 0xdc00 <= u as bv32 <= 0xdfff
  {
  }

  function PlaneValue(top: bv32, bottom: bv32): bv32 {
    0x10000 + top * 0x400 + bottom
  }

  /** The value of a surrogate pair. */
  function PairValue(high: bv32, low: bv32): bv32 {
    PlaneValue(high - 0xd800, low - 0xdc00)
  }

  /** A unit that is no surrogate, or a surrogate pair, is what Utf16 makes of its value. */
  lemma Utf16OfUnit(u: Unit)
    ensures Utf16(u as bv32) == [u]
  {
  }

  lemma PairBits(high: bv32, low: bv32)
    requires 0xd800 <= high <= 0xdbff && 0xdc00 <= low <= 0xdfff
    ensures 0x10000 <= PairValue(high, low) <= 0x10ffff
    ensures HighOf(PairValue(high, low)) == high && LowOf(PairValue(high, low)) == low
  {
  }

  lemma CastThere(x: bv32, u: Unit)
    requires x == u as bv32
    ensures x <= 0xffff && x as Unit == u
  {
  }

  lemma Utf16OfBits(v: bv32, high: Unit, low: Unit)
    requires v > 0xffff && HighOf(v) == high as bv32 && LowOf(v) == low as bv32
    ensures Utf16(v) == [high, low]
  {
    hide HighOf, LowOf;
    CastThere(HighOf(v), high);
    CastThere(LowOf(v), low);
  }

  lemma Utf16OfPair(high: Unit, low: Unit)
    requires IsHigh(high) && IsLow(low)
    ensures IsScalar(PairValue(high as bv32, low as bv32)) && PairValue(high as bv32, low as bv32) > 0xffff
    ensures Utf16(PairValue(high as bv32, low as bv32)) == [high, low]
  {
    hide PairValue, HighOf, LowOf;
    UnitRanges(high);
    UnitRanges(low);
    PairBits(high as bv32, low as bv32);
    Utf16OfBits(PairValue(high as bv32, low as bv32), high, low);
  }

  lemma HighBits(v: bv32, high: bv32, low: bv32)
    requires 0x10000 <= v <= 0x10ffff
    requires high == HighOf(v) && low == LowOf(v)
    ensures 0xd800 <= high <= 0xdbff && 0xdc00 <= low <= 0xdfff
    ensures high - 0xd800 == (v - 0x10000) >> 10 && low - 0xdc00 == (v - 0x10000) & 0x3ff
  {
  }

  lemma PlaneBits(v: bv32)
    requires 0x10000 <= v <= 0x10ffff
    ensures PlaneValue((v - 0x10000) >> 10, (v - 0x10000) & 0x3ff) == v
  {
  }

  lemma SplitBits(v: bv32, high: bv32, low: bv32)
    requires 0x10000 <= v <= 0x10ffff
    requires high == HighOf(v) && low == LowOf(v)
    ensures 0xd800 <= high <= 0xdbff && 0xdc00 <= low <= 0xdfff && PairValue(high, low) == v
  {
    HighBits(v, high, low);
    PlaneBits(v);
  }

  lemma CastBack(x: bv32, u: Unit)
    requires x <= 0xffff && u == x as Unit
    ensures u as bv32 == x
  {
  }

  lemma Utf16Single(v: bv32) returns (u: Unit)
    requires IsScalar(v) && v <= 0xffff
    ensures Utf16(v) == [u] && u as bv32 == v && !IsHigh(u) && !IsLow(u)
  {
    assert v & 0xffff == v;
    u := v as Unit;
    CastBack(v, u);
    UnitRanges(u);
  }

  lemma Utf16Double(v: bv32) returns (high: Unit, low: Unit)
    requires IsScalar(v) && v > 0xffff
    ensures Utf16(v) == [high, low] && IsHigh(high) && IsLow(low) && PairValue(high as bv32, low as bv32) == v
  {
    high, low := Utf16(v)[0], Utf16(v)[1];
    SplitUnits(v, high, low);
  }

  lemma SplitUnits(v: bv32, high: Unit, low: Unit)
    requires 0x10000 <= v <= 0x10ffff
    requires high == HighOf(v) as Unit
    requires low == LowOf(v) as Unit
    ensures IsHigh(high) && IsLow(low) && PairValue(high as bv32, low as bv32) == v
  {
    UnitRanges(high);
    UnitRanges(low);
    SplitBits(v, high as bv32, low as bv32);
  }

  /** A scalar value in front keeps a text free of unpaired surrogates. */
  lemma ScalarKeepsWellFormed(v: bv32, rest: Text)
    requires IsScalar(v) && WellFormed(rest)
    ensures WellFormed(Utf16(v) + rest)
  {
    var front := Utf16(v);
    if v <= 0xffff { var u := Utf16Single(v); } else { var high, low := Utf16Double(v); }
    forall i | 0 <= i < |front + rest| ensures !Unpaired(front + rest, i) {
      if i >= |front| { assert !Unpaired(rest, i - |front|); }
    }
  }

  /** Cutting `text` where no pair is split repairs the two parts separately. */
  lemma RepairedCut(text: Text, n: nat)
    requires 0 < n < |text| && !(IsHigh(text[n - 1]) && IsLow(text[n]))
    ensures Repaired(text) == Repaired(text[..n]) + Repaired(text[n..])
  {
    forall i | 0 <= i < |text|
      ensures Repaired(text)[i] == (Repaired(text[..n]) + Repaired(text[n..]))[i]
    {
      if i < n {
        assert Unpaired(text, i) == Unpaired(text[..n], i);
      } else {
        assert Unpaired(text, i) == Unpaired(text[n..], i - n);
      }
    }
  }
}
