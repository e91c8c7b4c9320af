/** A fixed file tree and the physical resolution of pathnames in it (POSIX.1-2017, XBD 4.13). */
module FileTree {
  import opened Prelude
  import opened PathText

  datatype Node = Directory | File | Link(target: string)

  /** Entries by canonical path; the top directory is the empty path. */
  type Tree = map<seq<string>, Node>

  datatype Errno = ENOENT | ENOTDIR | ELOOP | EPERM

  /** An entry has a proper name in a directory. */
  ghost predicate Entry(fs: Tree, p: seq<string>) {
    p in fs ==> AllProper(p) && Parent(p) in fs && fs[Parent(p)] == Directory
  }

  ghost predicate WellFormed(fs: Tree) {
    [] in fs && fs[[]] == Directory && forall p {:trigger Entry(fs, p)} :: Entry(fs, p)
  }

  /** A path without symbolic links: what `realpathSync` answers. */
  predicate IsReal(fs: Tree, p: seq<string>) {
    p in fs && !fs[p].Link?
  }

  predicate Absolute(s: string) {
    s != "" && s[0] == SEP
  }

  /** Resolution of components from the directory `dir`, following at most `links` symbolic links. */
  function Resolve(fs: Tree, dir: seq<string>, comps: seq<string>, links: nat): Result<seq<string>, Errno>
    decreases links, |comps|
  {
    if comps == [] then Ok(dir)
    else if dir !in fs || fs[dir] != Directory then Err(ENOTDIR)
    else if comps[0] == "" || comps[0] == "." then Resolve(fs, dir, comps[1..], links)
    else if comps[0] == ".." then Resolve(fs, Parent(dir), comps[1..], links)
    else
      var child := dir + [comps[0]];
      if child !in fs then Err(ENOENT)
      else match fs[child]
        case Link(target) =>
          if links == 0 then Err(ELOOP)
          else if target == "" then Err(ENOENT)
          else Resolve(fs, if Absolute(target) then [] else dir, Split(target) + comps[1..], links - 1)
        case _ => Resolve(fs, child, comps[1..], links)
  }

  /** The path denotes `q` in the tree, however many links are followed on the way. */
  ghost predicate Denotes(fs: Tree, dir: seq<string>, comps: seq<string>, q: seq<string>) {
    exists links: nat :: Resolve(fs, dir, comps, links) == Ok(q)
  }

  /** Allowing more links changes nothing but ELOOP. */
  lemma {:induction false} MoreLinks(fs: Tree, dir: seq<string>, comps: seq<string>, few: nat, many: nat)
    requires few <= many && Resolve(fs, dir, comps, few) != Err(ELOOP)
    ensures Resolve(fs, dir, comps, many) == Resolve(fs, dir, comps, few)
    decreases few, |comps|
  {
    if comps != [] && dir in fs && fs[dir] == Directory {
      if comps[0] == "" || comps[0] == "." {
        MoreLinks(fs, dir, comps[1..], few, many);
      } else if comps[0] == ".." {
        MoreLinks(fs, Parent(dir), comps[1..], few, many);
      } else {
        var child := dir + [comps[0]];
        if child in fs {
          match fs[child]
          case Link(target) =>
            if few > 0 && target != "" {
              MoreLinks(fs, if Absolute(target) then [] else dir, Split(target) + comps[1..], few - 1, many - 1);
            }
          case _ => MoreLinks(fs, child, comps[1..], few, many);
        }
      }
    }
  }

  /** A path denotes at most one file, and any number of links that does not loop finds it. */
  lemma DenotesOne(fs: Tree, dir: seq<string>, comps: seq<string>, q: seq<string>, links: nat)
    requires Denotes(fs, dir, comps, q)
    ensures Resolve(fs, dir, comps, links) == Ok(q) || Resolve(fs, dir, comps, links) == Err(ELOOP)
  {
    var n: nat :| Resolve(fs, dir, comps, n) == Ok(q);
    if links <= n {
      if Resolve(fs, dir, comps, links) != Err(ELOOP) { MoreLinks(fs, dir, comps, links, n); }
    } else {
      MoreLinks(fs, dir, comps, n, links);
    }
  }

  lemma {:induction false} ResolveIsReal(fs: Tree, dir: seq<string>, comps: seq<string>, links: nat)
    requires WellFormed(fs) && IsReal(fs, dir) && Resolve(fs, dir, comps, links).Ok?
    ensures IsReal(fs, Resolve(fs, dir, comps, links).value)
    decreases links, |comps|
  {
    if comps != [] {
      if comps[0] == "" || comps[0] == "." {
        ResolveIsReal(fs, dir, comps[1..], links);
      } else if comps[0] == ".." {
        assert Entry(fs, dir);
        ResolveIsReal(fs, Parent(dir), comps[1..], links);
      } else {
        match fs[dir + [comps[0]]]
        case Link(target) =>
          ResolveIsReal(fs, if Absolute(target) then [] else dir, Split(target) + comps[1..], links - 1);
        case _ => ResolveIsReal(fs, dir + [comps[0]], comps[1..], links);
      }
    }
  }

  /** Resolution of a concatenation goes through what its first part denotes. */
  lemma {:induction false} ResolveAppend(fs: Tree, dir: seq<string>, a: seq<string>, b: seq<string>, links: nat)
    returns (mid: seq<string>, rest: nat)
    requires Resolve(fs, dir, a + b, links).Ok?
    ensures rest <= links && Resolve(fs, dir, a, links) == Ok(mid)
    ensures Resolve(fs, mid, b, rest) == Resolve(fs, dir, a + b, links)
    decreases links, |a|
  {
    if a == [] {
      assert a + b == b;
      mid, rest := dir, links;
    } else {
      var tail := a[1..];
      assert (a + b)[0] == a[0] && (a + b)[1..] == tail + b;
      if a[0] == "" || a[0] == "." {
        mid, rest := ResolveAppend(fs, dir, tail, b, links);
      } else if a[0] == ".." {
        mid, rest := ResolveAppend(fs, Parent(dir), tail, b, links);
      } else {
        var child := dir + [a[0]];
        match fs[child]
        case Link(target) =>
          assert Split(target) + (tail + b) == (Split(target) + tail) + b;
          mid, rest := ResolveAppend(fs, if Absolute(target) then [] else dir, Split(target) + tail, b, links - 1);
        case _ => mid, rest := ResolveAppend(fs, child, tail, b, links);
      }
    }
  }

  /** A canonical path resolves to itself, and from there on as if started there. */
  lemma {:induction false} ResolveCanonical(fs: Tree, p: seq<string>, n: nat, comps: seq<string>, links: nat)
    requires WellFormed(fs) && IsReal(fs, p) && n <= |p|
    ensures Resolve(fs, p[..n], p[n..] + comps, links) == Resolve(fs, p, comps, links)
    decreases |p| - n
  {
    if n == |p| {
      assert p[..n] == p && p[n..] + comps == comps;
    } else {
      PrefixIsDirectory(fs, p, n);
      var all := p[n..] + comps;
      assert all[0] == p[n] && all[1..] == p[n + 1..] + comps;
      assert p[..n] + [p[n]] == p[..n + 1];
      if n + 1 == |p| { assert p[..n + 1] == p; } else { PrefixIsDirectory(fs, p, n + 1); }
      assert Entry(fs, p) && Proper(p[n]);
      ResolveCanonical(fs, p, n + 1, comps, links);
    }
  }

  lemma {:induction false} PrefixIsDirectory(fs: Tree, p: seq<string>, n: nat)
    requires WellFormed(fs) && p in fs && n < |p|
    ensures p[..n] in fs && fs[p[..n]] == Directory
    decreases |p|
  {
    var up := Parent(p);
    assert Entry(fs, p);
    if n == |p| - 1 { assert p[..n] == up; } else {
      PrefixIsDirectory(fs, up, n);
      assert up[..n] == p[..n];
    }
  }

  // ---- the operating system's calls --------------------------------------------------------

  /** `realpathSync` on an absolute path string, following at most `limit` links. */
  function RealPath(fs: Tree, s: string, limit: nat): Result<string, Errno> {
    match Resolve(fs, [], Split(s), limit)
    case Ok(p) => Ok(Render(p))
    case Err(e) => Err(e)
  }

  /** Below a canonical path, `realpathSync` resolves the last component physically. */
  lemma RealPathBelow(fs: Tree, p: seq<string>, seg: string, limit: nat)
    requires WellFormed(fs) && IsReal(fs, p) && NoSep(seg)
    ensures Split(JoinReal(Render(p), seg)) == [""] + p + [seg]
    ensures RealPath(fs, JoinReal(Render(p), seg), limit) ==
      match Resolve(fs, p, [seg], limit) case Ok(q) => Ok(Render(q)) case Err(e) => Err(e)
  {
    assert Entry(fs, p);
    JoinRealRenders(p, seg);
    SplitBelow(p, seg);
    var comps := [""] + p + [seg];
    assert comps[1..] == p + [seg];
    assert Resolve(fs, [], comps, limit) == Resolve(fs, [], p + [seg], limit);
    ResolveCanonical(fs, p, 0, [seg], limit);
    assert p[..0] == [] && p[0..] == p;
  }

  lemma SplitBelow(p: seq<string>, seg: string)
    requires AllProper(p) && NoSep(seg)
    ensures Split(Slashed(p + [seg])) == [""] + p + [seg]
  {
    SlashedAppend(p, [seg]);
    assert Slashed([seg]) == [SEP] + seg + Slashed([]);
    assert Slashed(p + [seg]) == Slashed(p) + [SEP] + seg;
    SplitAt(Slashed(p), seg);
    SplitSlashed(p);
    SplitNoSep(seg);
  }

  /** Resolving two parts in turn is resolving their concatenation. */
  lemma {:induction false} ResolveConcat(
    fs: Tree, dir: seq<string>, a: seq<string>, b: seq<string>, n: nat, mid: seq<string>, m: nat)
    requires Resolve(fs, dir, a, n) == Ok(mid) && Resolve(fs, mid, b, m) != Err(ELOOP)
    ensures Resolve(fs, dir, a + b, n + m) == Resolve(fs, mid, b, m)
    decreases n, |a|
  {
    if a == [] {
      assert a + b == b;
      MoreLinks(fs, mid, b, m, n + m);
    } else {
      var tail := a[1..];
      assert (a + b)[0] == a[0] && (a + b)[1..] == tail + b;
      if a[0] == "" || a[0] == "." {
        ResolveConcat(fs, dir, tail, b, n, mid, m);
      } else if a[0] == ".." {
        ResolveConcat(fs, Parent(dir), tail, b, n, mid, m);
      } else {
        match fs[dir + [a[0]]]
        case Link(target) =>
          assert Split(target) + (tail + b) == (Split(target) + tail) + b;
          ResolveConcat(fs, if Absolute(target) then [] else dir, Split(target) + tail, b, n - 1, mid, m);
        case _ => ResolveConcat(fs, dir + [a[0]], tail, b, n, mid, m);
      }
    }
  }

  /** What a concatenation denotes is what its second part denotes from where the first leads. */
  lemma DenotesAppend(fs: Tree, dir: seq<string>, a: seq<string>, b: seq<string>, mid: seq<string>, q: seq<string>)
    requires Denotes(fs, dir, a, mid)
    ensures Denotes(fs, dir, a + b, q) <==> Denotes(fs, mid, b, q)
  {
    if Denotes(fs, dir, a + b, q) {
      var n: nat :| Resolve(fs, dir, a + b, n) == Ok(q);
      var mid', rest := ResolveAppend(fs, dir, a, b, n);
      DenotesOne(fs, dir, a, mid, n);
    }
    if Denotes(fs, mid, b, q) {
      var n: nat :| Resolve(fs, dir, a, n) == Ok(mid);
      var m: nat :| Resolve(fs, mid, b, m) == Ok(q);
      ResolveConcat(fs, dir, a, b, n, mid, m);
    }
  }

  /** `lstatSync` on an absolute path string: the last component is looked up, not followed. */
  function Lstat(fs: Tree, s: string, limit: nat): Result<Node, Errno> {
    var comps := Split(s);
    match Resolve(fs, [], comps[..|comps| - 1], limit)
    case Err(e) => Err(e)
    case Ok(d) =>
      var child := d + [comps[|comps| - 1]];
      if d in fs && fs[d] != Directory then Err(ENOTDIR)
      else if child in fs then Ok(fs[child])
      else Err(ENOENT)
  }

  lemma LstatBelow(fs: Tree, p: seq<string>, name: string, limit: nat)
    requires WellFormed(fs) && IsReal(fs, p) && fs[p] == Directory && NoSep(name)
    ensures Lstat(fs, JoinReal(Render(p), name), limit) ==
      if p + [name] in fs then Ok(fs[p + [name]]) else Err(ENOENT)
  {
    RealPathBelow(fs, p, name, limit);
    var comps := [""] + p + [name];
    assert comps[..|comps| - 1] == [""] + p && ([""] + p)[1..] == p;
    ResolveCanonical(fs, p, 0, [], limit);
    assert p[..0] == [] && p[0..] + [] == p;
    assert Resolve(fs, p, [], limit) == Ok(p);
  }
}
