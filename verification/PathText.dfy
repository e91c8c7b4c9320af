/** Path strings: splitting at the separator, absolute spellings, dirname, and the prefix test. */
module PathText {
  const SEP: char := '/'

  /** A path string's components, `s.split("/")`: always at least one, possibly empty. */
  function Split(s: string): (parts: seq<string>)
    ensures |parts| >= 1
  {
    if s == "" then [""]
    else
      var rest := Split(s[1..]);
      if s[0] == SEP then [""] + rest else [[s[0]] + rest[0]] + rest[1..]
  }

  predicate NoSep(s: string) {
    SEP !in s
  }

  /** A file name as a directory holds it. */
  predicate Proper(name: string) {
    name != "" && name != "." && name != ".." && NoSep(name)
  }

  predicate AllProper(p: seq<string>) {
    forall i :: 0 <= i < |p| ==> Proper(p[i])
  }

  /** "/a/b" for [a, b]. */
  function Slashed(p: seq<string>): string {
    if p == [] then "" else [SEP] + p[0] + Slashed(p[1..])
  }

  /** The absolute spelling of a canonical path. */
  function Render(p: seq<string>): string {
    if p == [] then [SEP] else Slashed(p)
  }

  function Parent(p: seq<string>): seq<string> {
    if p == [] then [] else p[..|p| - 1]
  }

  lemma {:induction false} SplitNoSep(s: string)
    requires NoSep(s)
    ensures Split(s) == [s]
  {
    if s != "" {
      SplitNoSep(s[1..]);
      assert s == [s[0]] + s[1..];
    }
  }

  /** Splitting at a separator. */
  lemma {:induction false} SplitAt(a: string, b: string)
    ensures Split(a + [SEP] + b) == Split(a) + Split(b)
  {
    var s := a + [SEP] + b;
    if a == "" {
      assert s[1..] == b;
    } else {
      assert s[1..] == a[1..] + [SEP] + b;
      SplitAt(a[1..], b);
    }
  }

  lemma {:induction false} SplitParts(s: string)
    ensures forall i :: 0 <= i < |Split(s)| ==> NoSep(Split(s)[i])
  {
    if s != "" { SplitParts(s[1..]); }
  }

  lemma {:induction false} SplitName(name: string, p: seq<string>)
    requires NoSep(name) && AllProper(p)
    ensures Split(name + Slashed(p)) == [name] + p
    decreases |p|
  {
    if p == [] {
      SplitNoSep(name);
      assert name + Slashed(p) == name;
    } else {
      var rest := p[0] + Slashed(p[1..]);
      assert name + Slashed(p) == name + [SEP] + rest;
      SplitNoSep(name);
      SplitAt(name, rest);
      SplitName(p[0], p[1..]);
    }
  }

  lemma SplitSlashed(p: seq<string>)
    requires AllProper(p)
    ensures Split(Slashed(p)) == [""] + p
  {
    SplitName("", p);
    assert "" + Slashed(p) == Slashed(p);
  }

  lemma {:induction false} SlashedAppend(p: seq<string>, q: seq<string>)
    ensures Slashed(p + q) == Slashed(p) + Slashed(q)
  {
    if p == [] {
      assert p + q == q;
    } else {
      assert (p + q)[1..] == p[1..] + q;
      SlashedAppend(p[1..], q);
    }
  }

  // ---- the containment test ----------------------------------------------------------------

  predicate StartsWith(s: string, prefix: string) {
    prefix <= s
  }

  predicate EndsWithSep(s: string) {
    s != "" && s[|s| - 1] == SEP
  }

  /** The condition under which `requireInside` returns. */
  predicate InsideText(path: string, root: string) {
    var prefix := if EndsWithSep(root) then root else root + [SEP];
    path == root || StartsWith(path, prefix)
  }

  lemma AfterName(name: string, lt: string, rt: string)
    requires [SEP] + name + lt <= [SEP] + name + rt
    ensures lt <= rt
  {
    assert ([SEP] + name + lt)[|name| + 1..] == lt && ([SEP] + name + rt)[|name| + 1..] == rt;
  }

  lemma {:induction false} SlashedPrefix(r: seq<string>, p: seq<string>)
    requires AllProper(r) && AllProper(p) && Slashed(r) + [SEP] <= Slashed(p) + [SEP]
    ensures r <= p
  {
    if r != [] {
      var left, right := Slashed(r) + [SEP], Slashed(p) + [SEP];
      assert |left| >= |Slashed(r[1..])| + 3;
      var lt, rt := Slashed(r[1..]) + [SEP], Slashed(p[1..]) + [SEP];
      assert left == [SEP] + r[0] + lt && right == [SEP] + p[0] + rt;
      assert lt[0] == SEP && rt[0] == SEP;
      SameName(r[0], lt, p[0], rt);
      AfterName(r[0], lt, rt);
      SlashedPrefix(r[1..], p[1..]);
      assert r == [r[0]] + r[1..] && p == [p[0]] + p[1..];
    }
  }

  /** Names that stop at a separator and agree up to there are equal. */
  lemma SameName(a: string, at: string, b: string, bt: string)
    requires NoSep(a) && NoSep(b) && at != "" && bt != "" && at[0] == SEP && bt[0] == SEP
    requires [SEP] + a + at <= [SEP] + b + bt
    ensures a == b
  {
    var left, right := [SEP] + a + at, [SEP] + b + bt;
    assert left[|a| + 1] == SEP && |left| > |a| + 1;
    assert right[|b| + 1] == SEP && |right| > |b| + 1;
    assert forall i :: 0 <= i < |left| ==> left[i] == right[i];
    assert |a| == |b|;
    assert forall i :: 0 <= i < |a| ==> left[i + 1] == a[i] && right[i + 1] == b[i];
  }

  /** The string test decides exactly whether one canonical path lies at or below another: a
    * sibling whose name merely starts like the root's is outside. */
  lemma InsideIsPrefix(p: seq<string>, r: seq<string>)
    requires AllProper(p) && AllProper(r)
    ensures InsideText(Render(p), Render(r)) <==> r <= p
  {
    if r == [] {
      assert Render(p)[0] == SEP;
    } else {
      RenderEndsPlain(r);
      if r <= p {
        assert p == r + p[|r|..];
        SlashedAppend(r, p[|r|..]);
        if p != r { assert Slashed(p[|r|..])[0] == SEP; }
      }
      if InsideText(Render(p), Render(r)) && p != [] {
        assert Slashed(r) + [SEP] <= Slashed(p) + [SEP];
        SlashedPrefix(r, p);
      }
      if p == [] { assert |Slashed(r)| > 1; }
    }
  }

  lemma {:induction false} RenderEndsPlain(r: seq<string>)
    requires AllProper(r) && r != []
    ensures |Slashed(r)| > 1 && !EndsWithSep(Slashed(r))
  {
    var last := |r| - 1;
    assert r == r[..last] + [r[last]];
    SlashedAppend(r[..last], [r[last]]);
    assert Slashed([r[last]]) == [SEP] + r[last] + Slashed([]);
    assert r[last][|r[last]| - 1] in r[last];
  }

  // ---- dirname and joining -----------------------------------------------------------------

  /** `joinReal`. */
  function JoinReal(dir: string, seg: string): string {
    if EndsWithSep(dir) then dir + seg else dir + [SEP] + seg
  }

  lemma JoinRealRenders(p: seq<string>, seg: string)
    requires AllProper(p)
    ensures JoinReal(Render(p), seg) == Slashed(p + [seg])
  {
    SlashedAppend(p, [seg]);
    assert Slashed([seg]) == [SEP] + seg + Slashed([]);
    if p == [] {
      assert p + [seg] == [seg];
      assert EndsWithSep(Render(p));
    } else {
      RenderEndsPlain(p);
      assert Slashed(p) + ([SEP] + seg) == Slashed(p) + [SEP] + seg;
    }
  }

  /** The last separator before a character that is none, scanning from `i` down to 1; -1 if none:
    * the scan of node's posix `dirname`. */
  function ScanBack(s: string, i: int, matchedSlash: bool): (end: int)
    requires i < |s|
    ensures -1 <= end < |s|
    decreases i
  {
    if i < 1 then -1
    else if s[i] == SEP then (if matchedSlash then ScanBack(s, i - 1, true) else i)
    else ScanBack(s, i - 1, false)
  }

  /** node's posix `dirname`. */
  function Dirname(s: string): string {
    if s == "" then "."
    else
      var end := ScanBack(s, |s| - 1, true);
      if end == -1 then (if s[0] == SEP then [SEP] else ".")
      else if s[0] == SEP && end == 1 then [SEP, SEP]
      else s[..end]
  }

  lemma {:induction false} ScanBackName(d: string, name: string, i: int, matched: bool)
    requires NoSep(name) && |d| <= i < |d| + 1 + |name|
    requires matched ==> i == |d| + |name| && name != ""
    ensures ScanBack(d + [SEP] + name, i, matched) == if |d| == 0 then -1 else |d|
    decreases i
  {
    var s := d + [SEP] + name;
    if i > |d| {
      assert s[i] == name[i - |d| - 1] && s[i] in name;
      ScanBackName(d, name, i - 1, false);
    }
  }

  /** The directory part of "d/name". */
  lemma DirnameSplits(d: string, name: string)
    requires NoSep(name) && name != ""
    ensures Dirname(d + [SEP] + name) == if d == "" then [SEP] else if d == [SEP] then [SEP, SEP] else d
  {
    var s := d + [SEP] + name;
    ScanBackName(d, name, |s| - 1, true);
    if d != "" {
      assert s[..|d|] == d;
      if |d| == 1 && s[0] == SEP { assert d == [SEP]; }
    }
  }

  lemma DirnameOfRender(p: seq<string>)
    requires AllProper(p)
    ensures Dirname(Render(p)) == Render(Parent(p))
  {
    if p == [] {
      assert ScanBack([SEP], 0, true) == -1;
    } else {
      var last := |p| - 1;
      assert p == p[..last] + [p[last]];
      SlashedAppend(p[..last], [p[last]]);
      assert Slashed([p[last]]) == [SEP] + p[last] + Slashed([]);
      assert Slashed(p) == Slashed(p[..last]) + [SEP] + p[last];
      DirnameSplits(Slashed(p[..last]), p[last]);
      if last > 0 { RenderEndsPlain(p[..last]); }
    }
  }

  /** `lastIndexOf` the separator. */
  function LastSep(s: string): (cut: int)
    ensures -1 <= cut < |s|
    ensures cut >= 0 ==> s[cut] == SEP
    ensures forall k :: cut < k < |s| ==> s[k] != SEP
  {
    if s == "" then -1
    else if s[|s| - 1] == SEP then |s| - 1
    else LastSep(s[..|s| - 1])
  }

  /** A path string's directory part and last component, as split at the last separator. */
  function DirPart(s: string): string {
    var cut := LastSep(s);
    if cut < 0 then "" else s[..cut]
  }

  function LastPart(s: string): string {
    s[LastSep(s) + 1..]
  }

  lemma SplitLast(s: string)
    ensures LastSep(s) < 0 ==> Split(s) == [LastPart(s)]
    ensures LastSep(s) >= 0 ==> Split(s) == Split(DirPart(s)) + [LastPart(s)]
  {
    var cut := LastSep(s);
    if cut < 0 {
      assert LastPart(s) == s;
      SplitNoSep(s);
    } else {
      Rejoin(s, cut);
      SplitInTwo(DirPart(s), LastPart(s));
    }
  }

  lemma Rejoin(s: string, cut: nat)
    requires cut < |s| && s[cut] == SEP
    ensures s[..cut] + [SEP] + s[cut + 1..] == s
  {
  }

  lemma SplitInTwo(a: string, b: string)
    requires NoSep(b)
    ensures Split(a + [SEP] + b) == Split(a) + [b]
  {
    SplitAt(a, b);
    SplitNoSep(b);
  }

  lemma {:induction false} LastPartOfName(d: string, name: string)
    requires NoSep(name)
    ensures LastSep(d + [SEP] + name) == |d| && LastPart(d + [SEP] + name) == name
    decreases |name|
  {
    var s := d + [SEP] + name;
    if name != "" {
      var last := |name| - 1;
      assert name[last] in name;
      assert s[..|s| - 1] == d + [SEP] + name[..last];
      LastPartOfName(d, name[..last]);
    }
  }

  /** Components below a base path string. */
  lemma {:induction false} SplitBase(base: string, p: seq<string>)
    requires AllProper(p)
    ensures Split(base + Slashed(p)) == Split(base) + p
    decreases |p|
  {
    if p == [] {
      assert base + Slashed(p) == base;
    } else {
      var last := |p| - 1;
      assert p == p[..last] + [p[last]];
      SlashedAppend(p[..last], [p[last]]);
      assert Slashed([p[last]]) == [SEP] + p[last] + Slashed([]);
      assert base + Slashed(p) == base + Slashed(p[..last]) + [SEP] + p[last];
      SplitAt(base + Slashed(p[..last]), p[last]);
      SplitNoSep(p[last]);
      SplitBase(base, p[..last]);
    }
  }
}
