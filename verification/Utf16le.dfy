/** tools/shell/polyfill.ts, utf16leDecode. */
module Utf16le {
  import opened Prelude
  import opened CodeUnits

  type Byte = bv8

  function UnitOf(low: Byte, high: Byte): Unit {
    (((low as bv32) | ((high as bv32) << 8)) & 0xffff) as Unit
  }

  function LowByte(u: Unit): Byte { (u & 0xff) as Byte }

  function HighByte(u: Unit): Byte { (((u as bv32) >> 8) & 0xff) as Byte }

  /** The code units of the complete byte pairs. */
  function Units(bytes: seq<Byte>): Text {
    seq(|bytes| / 2, i requires 0 <= i < |bytes| / 2 => UnitOf(bytes[2 * i], bytes[2 * i + 1]))
  }

  /** The byte pairs of a text, low byte first. */
  function LittleEndian(text: Text): seq<Byte> {
    seq(2 * |text|, k requires 0 <= k < 2 * |text| =>
      if k % 2 == 0 then LowByte(text[k / 2]) else HighByte(text[k / 2]))
  }

  /** `utf16leDecode`, with None for the thrown TypeError: fatal mode accepts exactly complete byte
    * pairs without unpaired surrogates, and otherwise every unpaired surrogate becomes U+FFFD. */
  method Utf16leDecode(bytes: seq<Byte>, fatal: bool) returns (r: Option<Text>)
    ensures fatal ==> (r.Some? <==> |bytes| % 2 == 0 && WellFormed(Units(bytes)))
    ensures r.Some? ==> r.value == Repaired(Units(bytes))
    ensures !fatal ==> r.Some?
  {
    if |bytes| % 2 != 0 && fatal { return None; }
    var out: Text := [];
    var n := |bytes| - |bytes| % 2;
    ghost var units := Units(bytes);
    ghost var at := 0;
    var i := 0;
    while i < n
      invariant i == 2 * at && n == 2 * |units|
      invariant RepairedTo(units, at, out, fatal)
    {
      var unit := UnitAt(bytes, i);
      if IsHigh(unit) {
        var hasNext := i + 3 < n + 1 && i + 2 < n;
        var next := 0;
        if hasNext { next := UnitAt(bytes, i + 2); }
        if hasNext && IsLow(next) {
          PairTurn(units, at, out, fatal);
          out := out + [unit, next];
          i, at := i + 4, at + 2;
        } else {
          assert Unpaired(units, at);
          if fatal { return None; }
          LoneTurn(units, at, out);
          out := out + [REPLACEMENT];
          i, at := i + 2, at + 1;
        }
      } else if IsLow(unit) {
        assert Unpaired(units, at);
        if fatal { return None; }
        LoneTurn(units, at, out);
        out := out + [REPLACEMENT];
        i, at := i + 2, at + 1;
      } else {
        PlainTurn(units, at, out, fatal);
        out := out + [unit];
        i, at := i + 2, at + 1;
      }
    }
    assert out == Repaired(units);
    return Some(out);
  }

  /** `out` repairs the first `at` units, no pair is split there, and fatal mode met none to repair. */
  ghost predicate RepairedTo(units: Text, at: nat, out: Text, fatal: bool) {
    && at <= |units| && |out| == at
    && (forall k :: 0 <= k < at ==> out[k] == if Unpaired(units, k) then REPLACEMENT else units[k])
    && (0 < at < |units| && IsLow(units[at]) ==> !IsHigh(units[at - 1]))
    && (fatal ==> forall k :: 0 <= k < at ==> !Unpaired(units, k))
  }

  lemma PairTurn(units: Text, at: nat, out: Text, fatal: bool)
    requires RepairedTo(units, at, out, fatal) && at + 1 < |units| && IsHigh(units[at]) && IsLow(units[at + 1])
    ensures RepairedTo(units, at + 2, out + [units[at], units[at + 1]], fatal)
  {
    assert !Unpaired(units, at) && !Unpaired(units, at + 1);
  }

  lemma LoneTurn(units: Text, at: nat, out: Text)
    requires RepairedTo(units, at, out, false) && at < |units| && Unpaired(units, at)
    ensures RepairedTo(units, at + 1, out + [REPLACEMENT], false)
  {
  }

  lemma PlainTurn(units: Text, at: nat, out: Text, fatal: bool)
    requires RepairedTo(units, at, out, fatal) && at < |units| && !IsHigh(units[at]) && !IsLow(units[at])
    ensures RepairedTo(units, at + 1, out + [units[at]], fatal)
  {
    assert !Unpaired(units, at);
  }

  method UnitAt(bytes: seq<Byte>, i: nat) returns (unit: Unit)
    requires i % 2 == 0 && i + 1 < |bytes|
    ensures unit == Units(bytes)[i / 2]
  {
    unit := UnitOf(bytes[i], bytes[i + 1]);
  }

  /** The first byte of a pair counts ones, the second two hundred and fifty-sixes. */
  lemma LowByteFirst(low: Byte, high: Byte)
    ensures UnitOf(low, high) as bv32 == (high as bv32) * 0x100 + (low as bv32)
  {}

  lemma SplitUnit(u: Unit)
    ensures UnitOf(LowByte(u), HighByte(u)) == u
  {
  }

  /** Printing code units low byte first and reading the pairs back gives the units, so by the
    * contract of Utf16leDecode fatal decoding accepts the print exactly of well-formed texts and
    * then returns the text itself. */
  lemma UnitsOfLittleEndian(text: Text)
    ensures Units(LittleEndian(text)) == text && |LittleEndian(text)| % 2 == 0
    ensures WellFormed(text) ==> Repaired(Units(LittleEndian(text))) == text
  {
    var bytes := LittleEndian(text);
    forall i | 0 <= i < |text| ensures Units(bytes)[i] == text[i] {
      assert bytes[2 * i] == LowByte(text[i]) && bytes[2 * i + 1] == HighByte(text[i]);
      SplitUnit(text[i]);
    }
    assert Units(bytes) == text;
  }

  /** The output of either mode has no unpaired surrogate. */
  lemma RepairedIsWellFormed(text: Text)
    ensures WellFormed(Repaired(text))
  {
    var out := Repaired(text);
    forall i | 0 <= i < |out| ensures !Unpaired(out, i) {
      if !Unpaired(text, i) && IsHigh(text[i]) { assert !Unpaired(text, i + 1); }
      if !Unpaired(text, i) && IsLow(text[i]) { assert !Unpaired(text, i - 1); }
    }
  }
}
