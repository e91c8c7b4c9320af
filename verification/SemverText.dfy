/** tools/version-guard/semver.ts against Semantic Versioning 2.0.0, and the reading of versions. */
module SemverText {
  import opened Prelude
  import opened StableSort
  import opened TagsRecords
  import opened Semver

  // ---- precedence, section 11 of Semantic Versioning 2.0.0 -------------------------------------

  /** 11.4.1 to 11.4.3: numeric identifiers by value, others in ASCII order, numeric below others. */
  predicate IdBelow(x: string, y: string) {
    if IsNumeric(x) && IsNumeric(y) then Value(x) < Value(y)
    else if IsNumeric(x) != IsNumeric(y) then IsNumeric(x)
    else x != y && Leq(x, y)
  }

  predicate IdSame(x: string, y: string) {
    if IsNumeric(x) && IsNumeric(y) then Value(x) == Value(y) else x == y
  }

  /** The first i identifiers agree, and then a ends first or has the lower identifier. */
  ghost predicate LowerAt(a: seq<string>, b: seq<string>, i: nat) {
    && i <= |a| && i < |b|
    && (forall j :: 0 <= j < i ==> IdSame(a[j], b[j]))
    && (i == |a| || IdBelow(a[i], b[i]))
  }

  /** 11.3 and 11.4: a pre-release is below the release, and pre-releases compare identifier by
    * identifier until a difference, more identifiers being above fewer. */
  ghost predicate PreBelow(a: seq<string>, b: seq<string>) {
    a != [] && (b == [] || exists i: nat :: LowerAt(a, b, i))
  }

  /** A version as it is written, its numbers not yet doubles. */
  datatype Written = Written(major: nat, minor: nat, patch: nat, pre: seq<string>)

  /** 11.2: major, minor and patch are compared in this order. */
  ghost predicate Below(x: Written, y: Written) {
    || x.major < y.major
    || (x.major == y.major && x.minor < y.minor)
    || (x.major == y.major && x.minor == y.minor && x.patch < y.patch)
    || (x.major == y.major && x.minor == y.minor && x.patch == y.patch && PreBelow(x.pre, y.pre))
  }

  function Rounded(w: Written): Version {
    Version(ToNumber(w.major), ToNumber(w.minor), ToNumber(w.patch), w.pre)
  }

  // identifiers

  function Sign(x: nat, y: nat): int {
    if x < y then -1 else if x == y then 0 else 1
  }

  /** Rounding keeps the order of the numbers apart from merging some. */
  lemma NumbersAgreeIff(m: nat, n: nat)
    ensures CompareNumbers(ToNumber(m), ToNumber(n)) == Sign(m, n) <==>
      if m == n then ToNumber(m).Finite?
      else if m < n then ToNumber(m) != ToNumber(n)
      else ToNumber(m) != ToNumber(n) || ToNumber(m).Infinity?
  {
    hide Round;
    if m <= n { RoundMonotone(m, n); } else { RoundMonotone(n, m); }
  }

  /** Numeric identifiers compare as their values do exactly when rounding keeps different values
    * apart and equal ones are within the range of doubles; of two beyond that range the first is
    * always said to be above. */
  lemma NumericIdsAgreeIff(x: string, y: string)
    requires IsNumeric(x) && IsNumeric(y)
    ensures CompareIds(x, y) == Sign(Value(x), Value(y)) <==>
      if Value(x) == Value(y) then NumberOf(x).Finite?
      else if Value(x) < Value(y) then NumberOf(x) != NumberOf(y)
      else NumberOf(x) != NumberOf(y) || NumberOf(x).Infinity?
  {
    hide Value, ToNumber, CompareNumbers;
    NumbersAgreeIff(Value(x), Value(y));
  }

  /** Not numeric, or a number that a double holds exactly. */
  predicate Exact(id: string) {
    IsNumeric(id) ==> NumberOf(id) == Finite(Value(id))
  }

  ghost predicate AllExact(pre: seq<string>) {
    forall i :: 0 <= i < |pre| ==> Exact(pre[i])
  }

  lemma ExactIsCalm(pre: seq<string>)
    requires AllExact(pre)
    ensures AllCalm(pre)
  {
    forall i | 0 <= i < |pre| ensures Calm(pre[i]) { assert Exact(pre[i]); }
  }

  lemma IdsAgree(x: string, y: string)
    requires Exact(x) && Exact(y)
    ensures CompareIds(x, y) == -1 <==> IdBelow(x, y)
    ensures CompareIds(x, y) == 0 <==> IdSame(x, y)
  {
    hide Value, IsNumeric, ToNumber;
  }

  // pre-releases

  /** LowerAt, for what follows the first i identifiers. */
  ghost predicate LowerFrom(a: seq<string>, b: seq<string>, i: nat) {
    exists k: nat :: i <= k && LowerAt(a, b, k)
  }

  ghost predicate SameUpTo(a: seq<string>, b: seq<string>, i: nat) {
    i <= |a| && i <= |b| && forall j :: 0 <= j < i ==> IdSame(a[j], b[j])
  }

  lemma {:induction false} FromAgrees(a: seq<string>, b: seq<string>, i: nat)
    requires AllExact(a) && AllExact(b) && SameUpTo(a, b, i)
    ensures CompareFrom(a, b, i) == -1 <==> LowerFrom(a, b, i)
    decreases |a| - i
  {
    hide IdBelow, IdSame, CompareIds, Exact;
    if i < |a| && i < |b| {
      IdsAgree(a[i], b[i]);
      if CompareIds(a[i], b[i]) == 0 {
        FromAgrees(a, b, i + 1);
        NotLowerHere(a, b, i);
      } else {
        DecidedHere(a, b, i);
      }
    } else {
      EndsHere(a, b, i);
    }
  }

  lemma SameIsNotBelow(x: string, y: string)
    requires IdSame(x, y)
    ensures !IdBelow(x, y)
  {}

  lemma NotLowerHere(a: seq<string>, b: seq<string>, i: nat)
    requires i < |a| && i < |b| && IdSame(a[i], b[i])
    ensures LowerFrom(a, b, i) <==> LowerFrom(a, b, i + 1)
  {
    SameIsNotBelow(a[i], b[i]);
    hide IdBelow, IdSame;
    assert !LowerAt(a, b, i);
  }

  lemma DecidedHere(a: seq<string>, b: seq<string>, i: nat)
    requires i < |a| && i < |b| && SameUpTo(a, b, i) && !IdSame(a[i], b[i])
    ensures LowerFrom(a, b, i) <==> IdBelow(a[i], b[i])
  {
    hide IdBelow, IdSame;
    if IdBelow(a[i], b[i]) { assert LowerAt(a, b, i); }
  }

  lemma EndsHere(a: seq<string>, b: seq<string>, i: nat)
    requires SameUpTo(a, b, i) && (i == |a| || i == |b|)
    ensures LowerFrom(a, b, i) <==> i < |b|
  {
    hide IdBelow, IdSame;
    if i < |b| { assert LowerAt(a, b, i); }
  }

  lemma PreAgrees(a: seq<string>, b: seq<string>)
    requires AllExact(a) && AllExact(b)
    ensures ComparedPre(a, b) == -1 <==> PreBelow(a, b)
  {
    hide LowerAt, CompareFrom, AllExact;
    FromAgrees(a, b, 0);
  }

  // whole versions

  /** Rounding keeps the two numbers apart. */
  predicate Apart(m: nat, n: nat) {
    ToNumber(m) != ToNumber(n)
  }

  /** The patch numbers and pre-releases, rounded, put x below y exactly if x shall be below y. */
  ghost predicate PatchKeeps(below: bool, x: Written, y: Written) {
    if Apart(x.patch, y.patch) then below <==> x.patch < y.patch
    else if below then PreBelow(x.pre, y.pre)
    else PreBelow(y.pre, x.pre)
  }

  ghost predicate MinorKeeps(below: bool, x: Written, y: Written) {
    if Apart(x.minor, y.minor) then below <==> x.minor < y.minor else PatchKeeps(below, x, y)
  }

  /** The first of major, minor and patch that differ as written are kept apart by rounding, or what
    * decides in their place happens to decide the same way. */
  ghost predicate OrderKept(x: Written, y: Written) {
    if x.major != y.major then Apart(x.major, y.major) || MinorKeeps(x.major < y.major, x, y)
    else if x.minor != y.minor then Apart(x.minor, y.minor) || PatchKeeps(x.minor < y.minor, x, y)
    else x.patch != y.patch ==> PatchKeeps(x.patch < y.patch, x, y)
  }

  lemma ApartKeepsOrder(m: nat, n: nat)
    ensures m == n ==> !Apart(m, n)
    ensures Apart(m, n) ==> (NumLess(ToNumber(m), ToNumber(n)) <==> m < n)
  {
    hide Round;
    if m <= n { RoundMonotone(m, n); } else { RoundMonotone(n, m); }
  }

  lemma BelowOneWay(a: seq<string>, b: seq<string>)
    requires AllExact(a) && AllExact(b)
    ensures ComparedPre(a, b) in {-1, 0, 1} && ComparedPre(b, a) == -ComparedPre(a, b)
    ensures ComparedPre(a, b) == -1 <==> PreBelow(a, b)
    ensures ComparedPre(a, b) == 1 <==> PreBelow(b, a)
  {
    PreAgrees(a, b);
    PreAgrees(b, a);
    ExactIsCalm(a);
    ExactIsCalm(b);
    hide PreBelow, AllExact, AllCalm, CompareFrom;
    FromFlip(a, b, 0);
  }

  /** compareSemver of versions as written, their numeric identifiers being exact as doubles, is the
    * precedence of section 11 if and only if rounding keeps the order of the three numbers. */
  lemma WrittenPrecedence(x: Written, y: Written)
    requires AllExact(x.pre) && AllExact(y.pre)
    ensures
      (Compare(Rounded(x), Rounded(y)) == -1 <==> Below(x, y)) && (Compare(Rounded(x), Rounded(y)) == 1 <==> Below(y, x))
      <==> OrderKept(x, y)
  {
    hide PreBelow, ComparedPre, AllExact, ToNumber;
    BelowOneWay(x.pre, y.pre);
    ApartKeepsOrder(x.major, y.major);
    ApartKeepsOrder(x.minor, y.minor);
    ApartKeepsOrder(x.patch, y.patch);
  }

  /** Numbers below 2^53 keep their order, whatever else the versions hold. */
  lemma SafeKeepsOrder(x: Written, y: Written)
    requires x.major < TWO53 && x.minor < TWO53 && x.patch < TWO53
    requires y.major < TWO53 && y.minor < TWO53 && y.patch < TWO53
    ensures OrderKept(x, y)
  {
    hide PreBelow;
    forall n: nat | n < TWO53 ensures ToNumber(n) == Finite(n) { SmallIsExact(n); }
    hide ToNumber;
  }

  lemma RoundsMerge(n: nat)
    requires n == TWO53
    ensures ToNumber(n) == ToNumber(n + 1) == Finite(n)
  {
    assert Spacing(n / 2) == 1 && Spacing((n + 1) / 2) == 1;
    assert Spacing(n) == 2 && Spacing(n + 1) == 2;
    assert Round(n) == n && Round(n + 1) == n;
  }

  /** From 2^53 on there are numbers that merge: two identifiers, and two versions, of which one is
    * below the other and which compare as equal. */
  lemma MergedExample(n: nat)
    requires n == TWO53
    ensures IsNumeric(Digits(n)) && IsNumeric(Digits(n + 1)) && Value(Digits(n)) < Value(Digits(n + 1))
    ensures CompareIds(Digits(n), Digits(n + 1)) == 0
    ensures
      var v, w := Written(n, 0, 0, []), Written(n + 1, 0, 0, []);
      Below(v, w) && !OrderKept(v, w) && Compare(Rounded(v), Rounded(w)) == 0
  {
    hide Digits, Value, ToNumber, IsNumeric;
    DigitsAreNumeric(n);
    DigitsAreNumeric(n + 1);
    RoundsMerge(n);
  }

  // ---- reading ---------------------------------------------------------------------------------

  /** The parts of X.Y.Z[-pre][+build] as they are written. */
  datatype Text = Text(major: string, minor: string, patch: string, pre: Option<string>, build: Option<string>)

  predicate IsIdChar(c: char) {
    IsDigit(c) || 'A' <= c <= 'Z' || 'a' <= c <= 'z' || c == '.' || c == '-'
  }

  /** Identifiers are made of letters, digits, hyphens and the dots between them. */
  lemma IdCharsAre(c: char)
    ensures IsIdChar(c) <==>
      c in "0123456789" || c in "ABCDEFGHIJKLMNOPQRSTUVWXYZ" || c in "abcdefghijklmnopqrstuvwxyz" || c in ".-"
  {
    DigitsAre(c);
    UpperAre(c);
    LowerAre(c);
  }

  lemma DigitsAre(c: char)
    ensures IsDigit(c) <==> c in "0123456789"
  {
    var s := "0123456789";
    if IsDigit(c) { assert s[c as int - '0' as int] == c; }
  }

  lemma UpperAre(c: char)
    ensures 'A' <= c <= 'Z' <==> c in "ABCDEFGHIJKLMNOPQRSTUVWXYZ"
  {
    var s := "ABCDEFGHIJKLMNOPQRSTUVWXYZ";
    if 'A' <= c <= 'Z' { assert s[c as int - 'A' as int] == c; }
  }

  lemma LowerAre(c: char)
    ensures 'a' <= c <= 'z' <==> c in "abcdefghijklmnopqrstuvwxyz"
  {
    var s := "abcdefghijklmnopqrstuvwxyz";
    if 'a' <= c <= 'z' { assert s[c as int - 'a' as int] == c; }
  }

  predicate All(s: string, p: char -> bool) {
    forall i :: 0 <= i < |s| ==> p(s[i])
  }

  predicate IsIds(s: string) {
    s != [] && All(s, IsIdChar)
  }

  /** What the pattern of the guard accepts. */
  predicate ValidText(t: Text) {
    && IsNumeric(t.major) && IsNumeric(t.minor) && IsNumeric(t.patch)
    && (t.pre.Some? ==> IsIds(t.pre.value)) && (t.build.Some? ==> IsIds(t.build.value))
  }

  function Suffix(mark: char, part: Option<string>): string {
    if part.Some? then [mark] + part.value else []
  }

  function Render(t: Text): string {
    t.major + ['.'] + t.minor + ['.'] + t.patch + Suffix('-', t.pre) + Suffix('+', t.build)
  }

  /** How many leading characters satisfy p. */
  function Span(s: string, p: char -> bool): (n: nat)
    ensures n <= |s| && All(s[..n], p) && (n < |s| ==> !p(s[n]))
  {
    if s == [] || !p(s[0]) then 0
    else
      var n := Span(s[1..], p);
      assert s[..n + 1] == [s[0]] + s[1..][..n];
      n + 1
  }

  /** A run of digits and what follows it. */
  function TakeDigits(s: string): Option<(string, string)> {
    var n := Span(s, IsDigit);
    if n == 0 then None else Some((s[..n], s[n..]))
  }

  /** A mark, a run of identifier characters, and what follows; nothing without the mark. */
  function TakePart(s: string, mark: char): Option<(Option<string>, string)> {
    if s == [] || s[0] != mark then Some((None, s))
    else
      var n := Span(s[1..], IsIdChar);
      if n == 0 then None else Some((Some(s[1..][..n]), s[1..][n..]))
  }

  function ParseText(s: string): Option<Text> {
    var d1 := TakeDigits(s);
    if d1.None? || d1.value.1 == [] || d1.value.1[0] != '.' then None
    else
      var d2 := TakeDigits(d1.value.1[1..]);
      if d2.None? || d2.value.1 == [] || d2.value.1[0] != '.' then None
      else
        var d3 := TakeDigits(d2.value.1[1..]);
        if d3.None? then None else ParseTail(d1.value.0, d2.value.0, d3.value.0, d3.value.1)
  }

  function ParseTail(major: string, minor: string, patch: string, s: string): Option<Text> {
    var pre := TakePart(s, '-');
    if pre.None? then None
    else
      var build := TakePart(pre.value.1, '+');
      if build.None? || build.value.1 != [] then None
      else Some(Text(major, minor, patch, pre.value.0, build.value.0))
  }

  lemma {:induction false} SpanIs(a: string, b: string, p: char -> bool)
    requires All(a, p) && (b == [] || !p(b[0]))
    ensures Span(a + b, p) == |a|
  {
    if a == [] {
      assert a + b == b;
    } else {
      assert (a + b)[1..] == a[1..] + b;
      SpanIs(a[1..], b, p);
    }
  }

  lemma DigitsTaken(d: string, rest: string)
    requires IsNumeric(d) && (rest == [] || !IsDigit(rest[0]))
    ensures TakeDigits(d + rest) == Some((d, rest))
  {
    SpanIs(d, rest, IsDigit);
    assert (d + rest)[..|d|] == d && (d + rest)[|d|..] == rest;
  }

  lemma SomeTaken(mark: char, part: string, rest: string)
    requires IsIds(part) && (rest == [] || !IsIdChar(rest[0]))
    ensures TakePart([mark] + (part + rest), mark) == Some((Some(part), rest))
  {
    SpanIs(part, rest, IsIdChar);
    hide Span, IsIdChar;
    var s := part + rest;
    assert ([mark] + s)[1..] == s;
    assert s[..|part|] == part && s[|part|..] == rest;
  }

  lemma PartTaken(mark: char, part: Option<string>, rest: string)
    requires part.Some? ==> IsIds(part.value)
    requires rest == [] || (!IsIdChar(rest[0]) && rest[0] != mark)
    ensures TakePart(Suffix(mark, part) + rest, mark) == Some((part, rest))
  {
    if part.Some? {
      SomeTaken(mark, part.value, rest);
      assert Suffix(mark, part) + rest == [mark] + (part.value + rest);
    } else {
      assert Suffix(mark, part) + rest == rest;
    }
  }

  lemma TailRead(t: Text)
    requires ValidText(t)
    ensures ParseTail(t.major, t.minor, t.patch, Suffix('-', t.pre) + Suffix('+', t.build)) == Some(t)
  {
    hide TakePart;
    PartTaken('-', t.pre, Suffix('+', t.build));
    PartTaken('+', t.build, []);
    assert Suffix('+', t.build) + [] == Suffix('+', t.build);
  }

  lemma RenderRead(t: Text)
    requires ValidText(t)
    ensures ParseText(Render(t)) == Some(t)
  {
    var tail := Suffix('-', t.pre) + Suffix('+', t.build);
    TailRead(t);
    RenderSplit(t);
    DigitsTaken(t.patch, tail);
    DigitsTaken(t.minor, ['.'] + (t.patch + tail));
    DigitsTaken(t.major, ['.'] + (t.minor + (['.'] + (t.patch + tail))));
    hide TakeDigits, ParseTail, Suffix, Render;
    assert (['.'] + (t.patch + tail))[1..] == t.patch + tail;
    assert (['.'] + (t.minor + (['.'] + (t.patch + tail))))[1..] == t.minor + (['.'] + (t.patch + tail));
  }

  lemma RenderSplit(t: Text)
    ensures Render(t) ==
      t.major + (['.'] + (t.minor + (['.'] + (t.patch + (Suffix('-', t.pre) + Suffix('+', t.build))))))
  {}

  lemma DigitsSplit(s: string)
    requires TakeDigits(s).Some?
    ensures IsNumeric(TakeDigits(s).value.0) && s == TakeDigits(s).value.0 + TakeDigits(s).value.1
  {}

  lemma PartSplit(s: string, mark: char)
    requires TakePart(s, mark).Some?
    ensures var (part, rest) := TakePart(s, mark).value;
      (part.Some? ==> IsIds(part.value)) && s == Suffix(mark, part) + rest
  {}

  lemma TailSplit(major: string, minor: string, patch: string, s: string)
    requires ParseTail(major, minor, patch, s).Some? && IsNumeric(major) && IsNumeric(minor) && IsNumeric(patch)
    ensures var t := ParseTail(major, minor, patch, s).value;
      && ValidText(t) && t.major == major && t.minor == minor && t.patch == patch
      && s == Suffix('-', t.pre) + Suffix('+', t.build)
  {
    PartSplit(s, '-');
    PartSplit(TakePart(s, '-').value.1, '+');
    hide TakePart, Suffix;
  }

  lemma ReadRender(s: string)
    requires ParseText(s).Some?
    ensures ValidText(ParseText(s).value) && Render(ParseText(s).value) == s
  {
    DigitsSplit(s);
    var r1 := TakeDigits(s).value.1;
    DigitsSplit(r1[1..]);
    var r2 := TakeDigits(r1[1..]).value.1;
    DigitsSplit(r2[1..]);
    var d1, d2, d3 := TakeDigits(s).value.0, TakeDigits(r1[1..]).value.0, TakeDigits(r2[1..]).value;
    hide TakeDigits, ParseTail, Suffix, Render;
    TailSplit(d1, d2, d3.0, d3.1);
    var t := ParseTail(d1, d2, d3.0, d3.1).value;
    RenderSplit(t);
    assert r1 == ['.'] + r1[1..] && r2 == ['.'] + r2[1..];
  }

  /** The pattern reads exactly the texts that are written from valid parts, and reads those parts. */
  lemma ParseTextIff(s: string, t: Text)
    ensures ParseText(s) == Some(t) <==> ValidText(t) && s == Render(t)
  {
    hide ParseText, ValidText, Render;
    if ParseText(s) == Some(t) { ReadRender(s); }
    if ValidText(t) && s == Render(t) { RenderRead(t); }
  }

  // ---- parseSemver -----------------------------------------------------------------------------

  function TrimStart(s: string): string {
    if s != [] && IsSpace(s[0]) then TrimStart(s[1..]) else s
  }

  function TrimEnd(s: string): string {
    if s != [] && IsSpace(s[|s| - 1]) then TrimEnd(s[..|s| - 1]) else s
  }

  datatype VersionError = NotAVersion | EmptyIdentifier

  function VersionOf(t: Text): Result<Version, VersionError>
    requires ValidText(t)
  {
    var pre := if t.pre.None? then [] else Split(t.pre.value, '.');
    if [] in pre then Err(EmptyIdentifier)
    else Ok(Version(NumberOf(t.major), NumberOf(t.minor), NumberOf(t.patch), pre))
  }

  function ParseSemver(v: string): Result<Version, VersionError> {
    var t := ParseText(TrimEnd(TrimStart(v)));
    if t.None? then Err(NotAVersion)
    else
      ReadRender(TrimEnd(TrimStart(v)));
      VersionOf(t.value)
  }

  // precedence of the texts

  function WrittenOf(t: Text): Written
    requires ValidText(t)
  {
    Written(Value(t.major), Value(t.minor), Value(t.patch), if t.pre.None? then [] else Split(t.pre.value, '.'))
  }

  /** compareSemver of two texts, against the numbers that they spell. */
  lemma CompareIsPrecedence(t: Text, u: Text)
    requires ValidText(t) && ValidText(u) && VersionOf(t).Ok? && VersionOf(u).Ok?
    requires AllExact(WrittenOf(t).pre) && AllExact(WrittenOf(u).pre)
    ensures
      var r := Compare(VersionOf(t).value, VersionOf(u).value);
      (r == -1 <==> Below(WrittenOf(t), WrittenOf(u))) && (r == 1 <==> Below(WrittenOf(u), WrittenOf(t)))
      <==> OrderKept(WrittenOf(t), WrittenOf(u))
  {
    hide Below, OrderKept, Compare, AllExact, ToNumber, Value, Split;
    WrittenPrecedence(WrittenOf(t), WrittenOf(u));
  }

  // writing

  function Join(parts: seq<string>, sep: char): string {
    if parts == [] then [] else if |parts| == 1 then parts[0] else parts[0] + [sep] + Join(parts[1..], sep)
  }

  /** An identifier that can be written: not empty, of letters, digits and hyphens. */
  predicate IsIdentifier(id: string) {
    IsIds(id) && '.' !in id
  }

  /** A version whose numbers doubles hold exactly, with identifiers that can be written. */
  predicate Printable(v: Version) {
    && v.major.Finite? && v.minor.Finite? && v.patch.Finite?
    && v.major.n < TWO53 && v.minor.n < TWO53 && v.patch.n < TWO53
    && forall i :: 0 <= i < |v.pre| ==> IsIdentifier(v.pre[i])
  }

  function TextOf(v: Version, build: Option<string>): Text
    requires Printable(v)
  {
    Text(Digits(v.major.n), Digits(v.minor.n), Digits(v.patch.n),
         if v.pre == [] then None else Some(Join(v.pre, '.')), build)
  }

  function Print(v: Version, build: Option<string>): string
    requires Printable(v)
  {
    Render(TextOf(v, build))
  }

  lemma {:induction false} SplitJoin(parts: seq<string>, sep: char)
    requires parts != [] && forall i :: 0 <= i < |parts| ==> sep !in parts[i]
    ensures Split(Join(parts, sep), sep) == parts
  {
    SplitOne(parts[0], sep);
    if |parts| > 1 {
      SplitJoin(parts[1..], sep);
      SplitAtSeparator(parts[0], Join(parts[1..], sep), sep);
      assert parts == [parts[0]] + parts[1..];
    }
  }

  lemma {:induction false} JoinIsIds(parts: seq<string>)
    requires parts != [] && forall i :: 0 <= i < |parts| ==> IsIds(parts[i])
    ensures IsIds(Join(parts, '.'))
  {
    if |parts| > 1 { JoinIsIds(parts[1..]); }
  }

  lemma TextOfRead(v: Version, build: Option<string>)
    requires Printable(v) && (build.Some? ==> IsIds(build.value))
    ensures ValidText(TextOf(v, build)) && VersionOf(TextOf(v, build)) == Ok(v)
  {
    DigitsAreNumeric(v.major.n);
    DigitsAreNumeric(v.minor.n);
    DigitsAreNumeric(v.patch.n);
    SmallIsExact(v.major.n);
    SmallIsExact(v.minor.n);
    SmallIsExact(v.patch.n);
    hide Digits, Value, ToNumber, IsNumeric, Join, Split, IsIds;
    if v.pre != [] {
      forall i | 0 <= i < |v.pre| ensures IsIds(v.pre[i]) && '.' !in v.pre[i] && v.pre[i] != [] {
        NotEmptyId(v.pre[i]);
      }
      SplitJoin(v.pre, '.');
      JoinIsIds(v.pre);
    }
  }

  lemma NotEmptyId(id: string)
    requires IsIdentifier(id)
    ensures id != []
  {}

  /** White space around the text. */
  predicate IsPadding(s: string) {
    All(s, IsSpace)
  }

  lemma {:induction false} PaddingTrimmed(before: string, s: string, after: string)
    requires IsPadding(before) && IsPadding(after)
    requires s != [] && !IsSpace(s[0]) && !IsSpace(s[|s| - 1])
    ensures TrimEnd(TrimStart(before + s + after)) == s
    decreases |before| + |after|
  {
    var whole := before + s + after;
    if before != [] {
      assert whole[1..] == before[1..] + s + after;
      PaddingTrimmed(before[1..], s, after);
    } else {
      assert whole == s + after;
      TrailingTrimmed(s, after);
    }
  }

  lemma {:induction false} TrailingTrimmed(s: string, after: string)
    requires IsPadding(after) && s != [] && !IsSpace(s[|s| - 1])
    ensures TrimEnd(s + after) == s
  {
    if after == [] {
      assert s + after == s;
    } else {
      assert (s + after)[..|s + after| - 1] == s + after[..|after| - 1];
      TrailingTrimmed(s, after[..|after| - 1]);
    }
  }

  lemma IdCharsAreInk(s: string)
    requires s != [] && All(s, IsIdChar)
    ensures !IsSpace(s[0]) && !IsSpace(s[|s| - 1])
  {
    assert IsIdChar(s[0]) && IsIdChar(s[|s| - 1]);
  }

  lemma RenderIsInk(t: Text)
    requires ValidText(t)
    ensures var s := Render(t); s != [] && !IsSpace(s[0]) && !IsSpace(s[|s| - 1])
  {
    var s := Render(t);
    assert s[0] == t.major[0] && IsDigit(t.major[0]);
    var tail := if t.build.Some? then t.build.value else if t.pre.Some? then t.pre.value else t.patch;
    assert s[|s| - 1] == tail[|tail| - 1];
    DigitsAreIds(t.patch);
    IdCharsAreInk(tail);
  }

  lemma DigitsAreIds(s: string)
    requires IsNumeric(s)
    ensures All(s, IsIdChar)
  {}

  /** Reading what is written for a version gives the version, with or without build metadata and
    * white space around it. */
  lemma ParsePrint(v: Version, build: Option<string>, before: string, after: string)
    requires Printable(v) && (build.Some? ==> IsIds(build.value)) && IsPadding(before) && IsPadding(after)
    ensures ParseSemver(before + Print(v, build) + after) == Ok(v)
  {
    var t := TextOf(v, build);
    TextOfRead(v, build);
    RenderIsInk(t);
    PaddingTrimmed(before, Render(t), after);
    RenderRead(t);
  }

  // what is refused

  /** Dots at the ends or next to each other leave an identifier empty. */
  predicate HasEmptyIdentifier(pre: string) {
    pre == "" || pre[0] == '.' || pre[|pre| - 1] == '.' || exists i :: 0 < i < |pre| && pre[i - 1] == '.' && pre[i] == '.'
  }

  lemma {:induction false} EmptyPieceIff(s: string)
    ensures [] in Split(s, '.') <==> HasEmptyIdentifier(s)
    ensures Split(s, '.')[0] == [] <==> s == "" || s[0] == '.'
  {
    if s != "" {
      EmptyPieceIff(s[1..]);
      var rest := Split(s[1..], '.');
      if s[0] == '.' {
        assert ([[]] + rest)[0] == [];
      } else {
        var pieces := [[s[0]] + rest[0]] + rest[1..];
        assert forall p :: p in pieces <==> p == [s[0]] + rest[0] || p in rest[1..];
        LaterPiece(s[1..]);
        Behind(s);
      }
    }
  }

  /** An empty piece behind the first. */
  lemma {:induction false} LaterPiece(s: string)
    ensures [] in Split(s, '.')[1..] <==>
      s != "" && (s[|s| - 1] == '.' || exists i :: 0 < i < |s| && s[i - 1] == '.' && s[i] == '.')
  {
    if s != "" {
      var rest := Split(s[1..], '.');
      LaterPiece(s[1..]);
      assert s[1..] != "" ==> s[1..][|s| - 2] == s[|s| - 1];
      Behind(s);
      if s[0] == '.' {
        assert ([[]] + rest)[1..] == rest;
        assert rest == [rest[0]] + rest[1..];
        FirstPiece(s[1..]);
        if s[1..] != "" && s[1] == '.' { assert s[0] == '.' && s[1] == '.'; }
      } else {
        assert ([[s[0]] + rest[0]] + rest[1..])[1..] == rest[1..];
      }
    }
  }

  lemma FirstPiece(s: string)
    ensures Split(s, '.')[0] == [] <==> s == "" || s[0] == '.'
  {}

  /** Two dots in a row are the first two characters or behind the first. */
  lemma Behind(s: string)
    requires s != ""
    ensures (exists i :: 0 < i < |s| && s[i - 1] == '.' && s[i] == '.') <==>
      (|s| > 1 && s[0] == '.' && s[1] == '.')
      || exists i :: 0 < i < |s[1..]| && s[1..][i - 1] == '.' && s[1..][i] == '.'
  {
    var t := s[1..];
    if i :| 0 < i < |s| && s[i - 1] == '.' && s[i] == '.' {
      if i > 1 { assert t[i - 2] == '.' && t[i - 1] == '.'; }
    }
    if i :| 0 < i < |t| && t[i - 1] == '.' && t[i] == '.' {
      assert s[i] == '.' && s[i + 1] == '.';
    }
  }

  /** v is the text of t between white space. */
  ghost predicate Spells(v: string, t: Text) {
    exists before, after :: IsPadding(before) && IsPadding(after) && v == before + Render(t) + after
  }

  /** A text of the form X.Y.Z[-pre][+build] is a version unless an identifier of it is empty. */
  lemma ParseAccepts(v: string, t: Text)
    requires ValidText(t) && Spells(v, t)
    ensures ParseSemver(v) ==
      if t.pre.Some? && HasEmptyIdentifier(t.pre.value) then Err(EmptyIdentifier) else VersionOf(t)
    ensures VersionOf(t).Ok? <==> !(t.pre.Some? && HasEmptyIdentifier(t.pre.value))
  {
    hide Split, Render, ParseText, HasEmptyIdentifier;
    var before, after :| IsPadding(before) && IsPadding(after) && v == before + Render(t) + after;
    RenderIsInk(t);
    PaddingTrimmed(before, Render(t), after);
    RenderRead(t);
    if t.pre.Some? { EmptyPieceIff(t.pre.value); }
  }

  lemma {:induction false} TrimmedStart(v: string) returns (before: string)
    ensures IsPadding(before) && v == before + TrimStart(v)
  {
    before := "";
    if v != "" && IsSpace(v[0]) {
      var more := TrimmedStart(v[1..]);
      before := [v[0]] + more;
      assert v == [v[0]] + v[1..];
    }
  }

  lemma {:induction false} TrimmedEnd(v: string) returns (after: string)
    ensures IsPadding(after) && v == TrimEnd(v) + after
  {
    after := "";
    if v != "" && IsSpace(v[|v| - 1]) {
      var more := TrimmedEnd(v[..|v| - 1]);
      after := more + [v[|v| - 1]];
      assert v == v[..|v| - 1] + [v[|v| - 1]];
    }
  }

  /** Any other text is refused. */
  lemma ParseRefuses(v: string)
    ensures ParseSemver(v) != Err(NotAVersion) <==> exists t :: ValidText(t) && Spells(v, t)
  {
    hide Render, ParseText, VersionOf;
    if ParseSemver(v) != Err(NotAVersion) {
      var t := ParseText(TrimEnd(TrimStart(v))).value;
      ReadRender(TrimEnd(TrimStart(v)));
      var before := TrimmedStart(v);
      var after := TrimmedEnd(TrimStart(v));
      assert v == before + Render(t) + after;
      assert Spells(v, t);
    }
    if t :| ValidText(t) && Spells(v, t) {
      ParseAccepts(v, t);
      NotFormless(t);
    }
  }

  lemma NotFormless(t: Text)
    requires ValidText(t)
    ensures VersionOf(t) != Err(NotAVersion)
  {}
}
