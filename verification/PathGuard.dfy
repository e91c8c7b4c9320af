/** wasi/src/filesystem_node.ts: requireInside, walkReal, chaseFinal and guard over a fixed tree.
  *
  * The methods work on path strings as the source does.  Each is proved equal to a function on
  * canonical paths, and the theorems relate those functions to FileTree's physical resolution.
  * None of the calls changes the tree.  `limit` is how many links one realpathSync call follows.
  */
module PathGuard {
  import opened Prelude
  import opened PathText
  import opened FileTree

  const MAX_CHASE: nat := 40

  predicate Trivial(comp: string) {
    comp == "" || comp == "."
  }

  /** `requireInside`: EPERM unless the path is the root or below it. */
  method RequireInside(path: string, root: string) returns (e: Option<Errno>)
    ensures e == if InsideText(path, root) then None else Some(EPERM)
  {
    var prefix := if EndsWithSep(root) then root else root + [SEP];
    if path != root && !StartsWith(path, prefix) { return Some(EPERM); }
    return None;
  }

  // ---- walkReal ----------------------------------------------------------------------------

  /** One component: `..` goes to the parent, any other name is resolved physically. */
  function WalkStep(fs: Tree, limit: nat, p: seq<string>, comp: string): Result<seq<string>, Errno> {
    if comp == ".." then Ok(Parent(p)) else Resolve(fs, p, [comp], limit)
  }

  function Walk(fs: Tree, limit: nat, p: seq<string>, comps: seq<string>, root: seq<string>): Result<seq<string>, Errno>
    decreases |comps|
  {
    if comps == [] then Ok(p)
    else if Trivial(comps[0]) then Walk(fs, limit, p, comps[1..], root)
    else match WalkStep(fs, limit, p, comps[0])
      case Err(e) => Err(e)
      case Ok(q) => if root <= q then Walk(fs, limit, q, comps[1..], root) else Err(EPERM)
  }

  function Rendered(r: Result<seq<string>, Errno>): Result<string, Errno> {
    match r case Ok(p) => Ok(Render(p)) case Err(e) => Err(e)
  }

  lemma WalkStepIsReal(fs: Tree, limit: nat, p: seq<string>, comp: string)
    requires WellFormed(fs) && IsReal(fs, p) && WalkStep(fs, limit, p, comp).Ok?
    ensures IsReal(fs, WalkStep(fs, limit, p, comp).value)
  {
    if comp == ".." { assert Entry(fs, p); } else { ResolveIsReal(fs, p, [comp], limit); }
  }

  /** The step on strings: `dirname`, or `realpathSync` of the joined path. */
  method StepText(fs: Tree, limit: nat, d: string, seg: string, ghost p: seq<string>) returns (r: Result<string, Errno>)
    requires WellFormed(fs) && IsReal(fs, p) && d == Render(p) && NoSep(seg)
    ensures r == Rendered(WalkStep(fs, limit, p, seg))
  {
    assert Entry(fs, p);
    if seg == ".." {
      DirnameOfRender(p);
      return Ok(Dirname(d));
    }
    RealPathBelow(fs, p, seg, limit);
    return RealPath(fs, JoinReal(d, seg), limit);
  }

  method WalkReal(fs: Tree, limit: nat, dir: string, rel: string, root: string, ghost p: seq<string>, ghost r: seq<string>)
    returns (result: Result<string, Errno>)
    requires WellFormed(fs) && IsReal(fs, p) && dir == Render(p) && AllProper(r) && root == Render(r)
    ensures result == Rendered(Walk(fs, limit, p, Split(rel), r))
  {
    var d := dir;
    ghost var at := p;
    var comps := Split(rel);
    SplitParts(rel);
    for i := 0 to |comps|
      invariant IsReal(fs, at) && d == Render(at)
      invariant Walk(fs, limit, at, comps[i..], r) == Walk(fs, limit, p, comps, r)
    {
      var seg := comps[i];
      assert comps[i..][0] == seg && comps[i..][1..] == comps[i + 1..];
      if seg == "" || seg == "." { continue; }
      var next := StepText(fs, limit, d, seg, at);
      if next.Err? { return next; }
      WalkStepIsReal(fs, limit, at, seg);
      ghost var q := WalkStep(fs, limit, at, seg).value;
      assert Entry(fs, q);
      InsideIsPrefix(q, r);
      var e := RequireInside(next.value, root);
      if e.Some? { return Err(e.value); }
      d, at := next.value, q;
    }
    return Ok(d);
  }

  /** What a successful walk answers is a real path, inside the root unless no component moved. */
  lemma {:induction false} WalkIsReal(fs: Tree, limit: nat, p: seq<string>, comps: seq<string>, root: seq<string>)
    requires WellFormed(fs) && IsReal(fs, p) && Walk(fs, limit, p, comps, root).Ok?
    ensures
      var q := Walk(fs, limit, p, comps, root).value;
      IsReal(fs, q) && (if forall i :: 0 <= i < |comps| ==> Trivial(comps[i]) then q == p else root <= q)
    decreases |comps|
  {
    if comps != [] {
      if Trivial(comps[0]) {
        WalkIsReal(fs, limit, p, comps[1..], root);
        assert forall i :: 0 <= i < |comps[1..]| ==> comps[1..][i] == comps[i + 1];
        assert (forall i :: 0 <= i < |comps| ==> Trivial(comps[i])) <==> (forall i :: 0 <= i < |comps[1..]| ==> Trivial(comps[1..][i])) by {
          assert forall i :: 0 < i < |comps| ==> comps[i] == comps[1..][i - 1];
        }
      } else {
        WalkStepIsReal(fs, limit, p, comps[0]);
        WalkIsReal(fs, limit, WalkStep(fs, limit, p, comps[0]).value, comps[1..], root);
      }
    }
  }

  /** Wherever a prefix of `comps` that moved leads from `p` is inside the root. */
  ghost predicate StaysInside(fs: Tree, p: seq<string>, comps: seq<string>, root: seq<string>) {
    forall k, m :: 0 < k <= |comps| && !Trivial(comps[k - 1]) && Denotes(fs, p, comps[..k], m) ==> root <= m
  }

  lemma StaysInsideTail(fs: Tree, p: seq<string>, comps: seq<string>, root: seq<string>, q: seq<string>)
    requires comps != [] && Denotes(fs, p, comps[..1], q)
    ensures StaysInside(fs, p, comps, root) <==>
      (Trivial(comps[0]) || root <= q) && StaysInside(fs, q, comps[1..], root)
  {
    var tail := comps[1..];
    forall k, m | 0 < k <= |tail| ensures Denotes(fs, q, tail[..k], m) <==> Denotes(fs, p, comps[..k + 1], m) {
      assert comps[..k + 1] == comps[..1] + tail[..k];
      DenotesAppend(fs, p, comps[..1], tail[..k], q, m);
    }
    if StaysInside(fs, p, comps, root) {
      forall k, m | 0 < k <= |tail| && !Trivial(tail[k - 1]) && Denotes(fs, q, tail[..k], m) ensures root <= m {
        assert !Trivial(comps[k]) && Denotes(fs, p, comps[..k + 1], m);
      }
    }
    if (Trivial(comps[0]) || root <= q) && StaysInside(fs, q, tail, root) {
      forall k, m | 0 < k <= |comps| && !Trivial(comps[k - 1]) && Denotes(fs, p, comps[..k], m) ensures root <= m {
        if k == 1 {
          var n: nat :| Resolve(fs, p, comps[..1], n) == Ok(m);
          DenotesOne(fs, p, comps[..1], q, n);
        } else {
          assert comps[..(k - 1) + 1] == comps[..k];
          assert !Trivial(tail[k - 2]) && Denotes(fs, q, tail[..k - 1], m);
        }
      }
    }
  }

  /** Where a path resolves within the link limit, the walk answers its resolution if the way stays
    * inside the root, and refuses with EPERM if it leaves. */
  lemma {:induction false} WalkIsResolution(
    fs: Tree, limit: nat, p: seq<string>, comps: seq<string>, root: seq<string>, links: nat)
    requires WellFormed(fs) && IsReal(fs, p) && links <= limit && Resolve(fs, p, comps, links).Ok?
    ensures Walk(fs, limit, p, comps, root) ==
      if StaysInside(fs, p, comps, root) then Resolve(fs, p, comps, links) else Err(EPERM)
    decreases |comps|
  {
    if comps != [] {
      assert comps == comps[..1] + comps[1..] && comps[..1] == [comps[0]];
      var q, rest := ResolveAppend(fs, p, comps[..1], comps[1..], links);
      StaysInsideTail(fs, p, comps, root, q);
      ResolveIsReal(fs, p, comps[..1], links);
      MoreLinks(fs, p, comps[..1], links, limit);
      WalkIsResolution(fs, limit, q, comps[1..], root, rest);
    }
  }

  /** Conversely a walk that answers gives the resolution, or the path uses a file as a directory. */
  lemma {:induction false} WalkOrNotDirectory(fs: Tree, limit: nat, p: seq<string>, comps: seq<string>, root: seq<string>)
    returns (links: nat)
    requires WellFormed(fs) && IsReal(fs, p) && Walk(fs, limit, p, comps, root).Ok?
    ensures Resolve(fs, p, comps, links) == Walk(fs, limit, p, comps, root) || Resolve(fs, p, comps, links) == Err(ENOTDIR)
    decreases |comps|
  {
    links := 0;
    if comps != [] {
      var c, tail := comps[0], comps[1..];
      assert comps == [c] + tail;
      if fs[p] == Directory {
        if Trivial(c) {
          links := WalkOrNotDirectory(fs, limit, p, tail, root);
        } else {
          var q := WalkStep(fs, limit, p, c).value;
          WalkStepIsReal(fs, limit, p, c);
          assert Resolve(fs, p, [c], limit) == Ok(q);
          var rest := WalkOrNotDirectory(fs, limit, q, tail, root);
          ResolveConcat(fs, p, [c], tail, limit, q, rest);
          links := limit + rest;
        }
      }
    }
  }

  /** No component but the last may lead to anything but a directory. */
  ghost predicate ThroughDirectories(fs: Tree, p: seq<string>, comps: seq<string>) {
    forall k, m :: 0 <= k < |comps| && Denotes(fs, p, comps[..k], m) ==> m in fs && fs[m] == Directory
  }

  lemma DenotesHere(fs: Tree, p: seq<string>, m: seq<string>)
    ensures Denotes(fs, p, [], m) <==> m == p
  {
    assert Resolve(fs, p, [], 0) == Ok(p);
  }

  lemma ThroughDirectoriesTail(fs: Tree, p: seq<string>, comps: seq<string>, q: seq<string>)
    requires comps != [] && p in fs && fs[p] == Directory && Denotes(fs, p, comps[..1], q)
    ensures ThroughDirectories(fs, p, comps) <==> ThroughDirectories(fs, q, comps[1..])
  {
    var tail := comps[1..];
    forall k, m | 0 <= k < |tail| ensures Denotes(fs, q, tail[..k], m) <==> Denotes(fs, p, comps[..k + 1], m) {
      assert comps[..k + 1] == comps[..1] + tail[..k];
      DenotesAppend(fs, p, comps[..1], tail[..k], q, m);
    }
    if ThroughDirectories(fs, p, comps) {
      forall k, m | 0 <= k < |tail| && Denotes(fs, q, tail[..k], m) ensures m in fs && fs[m] == Directory {
        assert Denotes(fs, p, comps[..k + 1], m);
      }
    }
    if ThroughDirectories(fs, q, tail) {
      forall k, m | 0 <= k < |comps| && Denotes(fs, p, comps[..k], m) ensures m in fs && fs[m] == Directory {
        if k == 0 {
          assert comps[..0] == [];
          DenotesHere(fs, p, m);
        } else {
          assert comps[..(k - 1) + 1] == comps[..k];
          assert Denotes(fs, q, tail[..k - 1], m);
        }
      }
    }
  }

  /** What a walk answers is what the path denotes if and only if the path goes through directories
    * alone: on a file the walk lets `.`, `..` and a trailing separator pass. */
  lemma {:induction false} WalkAnswersResolution(fs: Tree, limit: nat, p: seq<string>, comps: seq<string>, root: seq<string>)
    requires WellFormed(fs) && IsReal(fs, p) && Walk(fs, limit, p, comps, root).Ok?
    ensures Denotes(fs, p, comps, Walk(fs, limit, p, comps, root).value) <==> ThroughDirectories(fs, p, comps)
    decreases |comps|
  {
    if comps == [] {
      DenotesHere(fs, p, p);
    } else if fs[p] != Directory {
      assert comps[..0] == [];
      DenotesHere(fs, p, p);
    } else {
      var c, tail := comps[0], comps[1..];
      assert comps == comps[..1] + tail && comps[..1] == [c];
      var q := if Trivial(c) then p else WalkStep(fs, limit, p, c).value;
      assert Resolve(fs, p, [c], limit) == Ok(q);
      if !Trivial(c) { WalkStepIsReal(fs, limit, p, c); }
      DenotesAppend(fs, p, [c], tail, q, Walk(fs, limit, p, comps, root).value);
      ThroughDirectoriesTail(fs, p, comps, q);
      WalkAnswersResolution(fs, limit, q, tail, root);
    }
  }

  const FILE_EXAMPLE: Tree := map[[] := Directory, ["r"] := Directory, ["r", "f"] := File]

  /** The walk of "f/.." comes back to the root, though "f" is a file and the path denotes nothing. */
  lemma FileThenParentExample(limit: nat)
    ensures WellFormed(FILE_EXAMPLE) && IsReal(FILE_EXAMPLE, ["r"])
    ensures Walk(FILE_EXAMPLE, limit, ["r"], ["f", ".."], ["r"]) == Ok(["r"])
    ensures Resolve(FILE_EXAMPLE, ["r"], ["f", ".."], limit) == Err(ENOTDIR)
  {
    forall p ensures Entry(FILE_EXAMPLE, p) {
      if p == ["r", "f"] { assert Parent(p) == ["r"]; }
      if p == ["r"] { assert Parent(p) == []; }
    }
    assert ["r"] + ["f"] == ["r", "f"] && ["f"][1..] == [] && ["f", ".."][1..] == [".."] && [".."][1..] == [];
    assert Resolve(FILE_EXAMPLE, ["r"], ["f"], limit) == Ok(["r", "f"]);
    assert Resolve(FILE_EXAMPLE, ["r", "f"], [".."], limit) == Err(ENOTDIR);
    assert Parent(["r", "f"]) == ["r"];
    assert Walk(FILE_EXAMPLE, limit, ["r", "f"], [".."], ["r"]) == Walk(FILE_EXAMPLE, limit, ["r"], [], ["r"]);
  }

  // ---- chaseFinal --------------------------------------------------------------------------

  /** Where following a link from `dir` walks to: the directory of its target's last component. */
  function LinkDir(fs: Tree, limit: nat, dir: seq<string>, target: string, root: seq<string>): Result<seq<string>, Errno> {
    var d := Walk(fs, limit, if Absolute(target) then [] else dir, Split(DirPart(target)), root);
    var last := LastPart(target);
    if d.Ok? && (last == "." || last == "..") then Walk(fs, limit, d.value, Split(last), root) else d
  }

  /** The component left to look up there; "" once the chain ended at a directory. */
  function LinkName(target: string): string {
    var last := LastPart(target);
    if last == "." || last == ".." then "" else last
  }

  /** The loop of `chaseFinal` with `turns` turns left: None when it returns. */
  function Chase(fs: Tree, limit: nat, dir: seq<string>, name: string, root: seq<string>, turns: nat): Option<Errno>
    decreases turns
  {
    if turns == 0 then Some(ELOOP)
    else if name == "" then (if root <= dir then None else Some(EPERM))
    else match Resolve(fs, dir, [name], limit)
      case Ok(q) => if root <= q then None else Some(EPERM)
      case Err(e) =>
        if e != ENOENT then Some(e)
        else if dir + [name] !in fs then None
        else match fs[dir + [name]]
          case Link(target) =>
            (match LinkDir(fs, limit, dir, target, root)
             case Err(e) => Some(e)
             case Ok(d) => Chase(fs, limit, d, LinkName(target), root, turns - 1))
          case _ => None
  }

  lemma LinkDirIsReal(fs: Tree, limit: nat, dir: seq<string>, target: string, root: seq<string>)
    requires WellFormed(fs) && IsReal(fs, dir) && LinkDir(fs, limit, dir, target, root).Ok?
    ensures IsReal(fs, LinkDir(fs, limit, dir, target, root).value)
  {
    var start := if Absolute(target) then [] else dir;
    WalkIsReal(fs, limit, start, Split(DirPart(target)), root);
    var d := Walk(fs, limit, start, Split(DirPart(target)), root).value;
    if LastPart(target) == "." || LastPart(target) == ".." {
      WalkIsReal(fs, limit, d, Split(LastPart(target)), root);
    }
  }

  /** The symlink case of a turn, on strings. */
  method FollowLink(fs: Tree, limit: nat, dir: string, target: string, root: string,
      ghost p: seq<string>, ghost r: seq<string>)
    returns (d: Result<string, Errno>, name: string)
    requires WellFormed(fs) && IsReal(fs, p) && dir == Render(p) && AllProper(r) && root == Render(r)
    ensures d == Rendered(LinkDir(fs, limit, p, target, r)) && name == LinkName(target)
  {
    hide Walk, Split, LastSep, Slashed;
    var cut := LastSep(target);
    name := if cut < 0 then target else target[cut + 1..];
    assert name == LastPart(target);
    ghost var start := if Absolute(target) then [] else p;
    d := WalkReal(fs, limit, if Absolute(target) then [SEP] else dir, if cut < 0 then "" else target[..cut], root, start, r);
    if name == "." || name == ".." {
      if d.Ok? {
        WalkIsReal(fs, limit, start, Split(DirPart(target)), r);
        ghost var at := Walk(fs, limit, start, Split(DirPart(target)), r).value;
        d := WalkReal(fs, limit, d.value, name, root, at, r);
      }
      name := "";
    }
  }

  /** What one turn of the loop does: it ends the chase, or goes on from another name. */
  datatype Turn = Done(e: Option<Errno>) | Next(dir: string, name: string)

  method ChaseTurn(fs: Tree, limit: nat, dir: string, name: string, root: string,
      ghost p: seq<string>, ghost r: seq<string>, ghost turns: nat)
    returns (t: Turn, ghost p': seq<string>)
    requires WellFormed(fs) && IsReal(fs, p) && dir == Render(p) && AllProper(r) && root == Render(r)
    requires NoSep(name) && turns > 0
    ensures match t
      case Done(e) => e == Chase(fs, limit, p, name, r, turns)
      case Next(dir', name') =>
        && IsReal(fs, p') && dir' == Render(p') && NoSep(name')
        && Chase(fs, limit, p, name, r, turns) == Chase(fs, limit, p', name', r, turns - 1)
  {
    hide Resolve, Walk, LinkDir, InsideText, Render, RealPath, JoinReal, Lstat;
    p' := p;
    assert Entry(fs, p);
    if name == "" {
      InsideIsPrefix(p, r);
      var e := RequireInside(dir, root);
      return Done(e), p;
    }
    var cur := JoinReal(dir, name);
    RealPathBelow(fs, p, name, limit);
    var resolved := RealPath(fs, cur, limit);
    if resolved.Ok? {
      var e := CheckResolved(fs, limit, name, resolved.value, root, p, r);
      return Done(e), p;
    }
    if resolved.error != ENOENT { return Done(Some(resolved.error)), p; }
    MissingInDirectory(fs, p, name, limit);
    LstatBelow(fs, p, name, limit);
    var st := Lstat(fs, cur, limit);
    if st.Err? { return Done(None), p; }
    if !st.value.Link? { return Done(None), p; }
    var d, next := FollowLink(fs, limit, dir, st.value.target, root, p, r);
    if d.Err? { return Done(Some(d.error)), p; }
    LinkDirIsReal(fs, limit, p, st.value.target, r);
    p' := LinkDir(fs, limit, p, st.value.target, r).value;
    return Next(d.value, next), p';
  }

  method CheckResolved(fs: Tree, limit: nat, name: string, path: string, root: string, ghost p: seq<string>, ghost r: seq<string>)
    returns (e: Option<Errno>)
    requires WellFormed(fs) && IsReal(fs, p) && AllProper(r) && root == Render(r)
    requires Resolve(fs, p, [name], limit).Ok? && path == Render(Resolve(fs, p, [name], limit).value)
    ensures e == if r <= Resolve(fs, p, [name], limit).value then None else Some(EPERM)
  {
    ResolveIsReal(fs, p, [name], limit);
    ghost var q := Resolve(fs, p, [name], limit).value;
    assert Entry(fs, q);
    InsideIsPrefix(q, r);
    e := RequireInside(path, root);
  }

  /** ENOENT comes from a directory, never from a file used as one. */
  lemma MissingInDirectory(fs: Tree, p: seq<string>, name: string, limit: nat)
    requires IsReal(fs, p) && Resolve(fs, p, [name], limit) == Err(ENOENT)
    ensures fs[p] == Directory
  {
  }

  method ChaseFinal(fs: Tree, limit: nat, full: string, root: string, parentReal: string,
      ghost p: seq<string>, ghost r: seq<string>)
    returns (e: Option<Errno>)
    requires WellFormed(fs) && IsReal(fs, p) && parentReal == Render(p) && AllProper(r) && root == Render(r)
    ensures e == Chase(fs, limit, p, LastPart(full), r, MAX_CHASE)
  {
    hide Chase;
    var dir, name := parentReal, LastPart(full);
    ghost var at := p;
    for i := 0 to MAX_CHASE
      invariant IsReal(fs, at) && dir == Render(at) && NoSep(name)
      invariant Chase(fs, limit, at, name, r, MAX_CHASE - i) == Chase(fs, limit, p, LastPart(full), r, MAX_CHASE)
    {
      var turn, next := ChaseTurn(fs, limit, dir, name, root, at, r, MAX_CHASE - i);
      match turn
      case Done(result) => return result;
      case Next(dir', name') => dir, name, at := dir', name', next;
    }
    OutOfTurns(fs, limit, at, name, r);
    return Some(ELOOP);
  }

  lemma OutOfTurns(fs: Tree, limit: nat, dir: seq<string>, name: string, root: seq<string>)
    ensures Chase(fs, limit, dir, name, root, 0) == Some(ELOOP)
  {
  }

  // ---- guard -------------------------------------------------------------------------------

  /** `join`: the base, or the base with the segments below it. */
  function Full(base: string, segments: seq<string>): string {
    base + Slashed(segments)
  }

  /** `guard`: the path to hand on, or the error thrown. */
  function GuardResult(fs: Tree, limit: nat, turns: nat, base: string, root: seq<string>, segments: seq<string>, follow: bool): Result<string, Errno> {
    var full := Full(base, segments);
    if segments == [] then
      match Resolve(fs, [], Split(full), limit)
      case Err(e) => Err(e)
      case Ok(q) => if root <= q then Ok(full) else Err(EPERM)
    else
      match Resolve(fs, [], Split(Dirname(full)), limit)
      case Err(e) => Err(e)
      case Ok(parent) =>
        if !(root <= parent) then Err(EPERM)
        else if !follow then Ok(full)
        else match Chase(fs, limit, parent, LastPart(full), root, turns)
          case Some(e) => Err(e)
          case None => Ok(full)
  }

  method Guard(fs: Tree, limit: nat, base: string, root: string, segments: seq<string>, follow: bool, ghost r: seq<string>)
    returns (result: Result<string, Errno>)
    requires WellFormed(fs) && AllProper(r) && root == Render(r)
    ensures result == GuardResult(fs, limit, 40, base, r, segments, follow)
  {
    var full := Full(base, segments);
    if |segments| == 0 {
      var here := RealPath(fs, full, limit);
      if here.Err? { return Err(here.error); }
      var e := CheckReal(fs, limit, full, here.value, root, r);
      return if e.Some? then Err(e.value) else Ok(full);
    }
    var parentReal := RealPath(fs, Dirname(full), limit);
    if parentReal.Err? { return Err(parentReal.error); }
    var e := CheckReal(fs, limit, Dirname(full), parentReal.value, root, r);
    if e.Some? { return Err(e.value); }
    if follow {
      ghost var p := Resolve(fs, [], Split(Dirname(full)), limit).value;
      ResolveIsReal(fs, [], Split(Dirname(full)), limit);
      var chased := ChaseFinal(fs, limit, full, root, parentReal.value, p, r);
      if chased.Some? { return Err(chased.value); }
    }
    return Ok(full);
  }

  method CheckReal(fs: Tree, limit: nat, s: string, path: string, root: string, ghost r: seq<string>) returns (e: Option<Errno>)
    requires WellFormed(fs) && AllProper(r) && root == Render(r) && RealPath(fs, s, limit) == Ok(path)
    ensures Resolve(fs, [], Split(s), limit).Ok? && path == Render(Resolve(fs, [], Split(s), limit).value)
    ensures e == if r <= Resolve(fs, [], Split(s), limit).value then None else Some(EPERM)
  {
    ResolveIsReal(fs, [], Split(s), limit);
    ghost var q := Resolve(fs, [], Split(s), limit).value;
    assert Entry(fs, q);
    InsideIsPrefix(q, r);
    e := RequireInside(path, root);
  }

  // ---- what guard guarantees ---------------------------------------------------------------

  /** The parent string denotes what the full path's components but the last denote. */
  lemma ParentOfFull(fs: Tree, base: string, segments: seq<string>, limit: nat)
    requires WellFormed(fs) && Absolute(base) && AllProper(segments) && segments != []
    ensures
      var last := |segments| - 1;
      && Split(Full(base, segments)) == (Split(base) + segments[..last]) + [segments[last]]
      && LastPart(Full(base, segments)) == segments[last]
      && Resolve(fs, [], Split(Dirname(Full(base, segments))), limit) == Resolve(fs, [], Split(base) + segments[..last], limit)
  {
    var last := |segments| - 1;
    var d := base + Slashed(segments[..last]);
    assert segments == segments[..last] + [segments[last]];
    SlashedAppend(segments[..last], [segments[last]]);
    assert Slashed([segments[last]]) == [SEP] + segments[last] + Slashed([]);
    assert Full(base, segments) == d + [SEP] + segments[last];
    SplitBase(base, segments);
    SplitBase(base, segments[..last]);
    LastPartOfName(d, segments[last]);
    DirnameSplits(d, segments[last]);
    if d == [SEP] { TopSpellings(fs, limit); }
  }

  /** "/" and "//" both denote the top directory. */
  lemma TopSpellings(fs: Tree, limit: nat)
    requires WellFormed(fs)
    ensures Resolve(fs, [], Split([SEP, SEP]), limit) == Ok([]) && Resolve(fs, [], Split([SEP]), limit) == Ok([])
  {
    assert [SEP, SEP][1..] == [SEP] && [SEP][1..] == "";
    assert Split([SEP]) == ["", ""] && Split([SEP, SEP]) == ["", "", ""];
    assert ["", "", ""][1..] == ["", ""] && ["", ""][1..] == [""] && [""][1..] == [];
    assert Resolve(fs, [], [""], limit) == Ok([]);
  }

  /** When the chase returns, whatever the name denotes is inside the root. */
  lemma ChaseContains(fs: Tree, limit: nat, turns: nat, dir: seq<string>, name: string, root: seq<string>, q: seq<string>)
    requires Proper(name) && Chase(fs, limit, dir, name, root, turns) == None && Denotes(fs, dir, [name], q)
    ensures root <= q
  {
    DenotesOne(fs, dir, [name], q, limit);
  }

  lemma GuardFollowed(fs: Tree, limit: nat, turns: nat, comps: seq<string>, name: string, root: seq<string>, place: seq<string>, q: seq<string>)
    requires WellFormed(fs) && Proper(name) && Resolve(fs, [], comps, limit) == Ok(place)
    requires Chase(fs, limit, place, name, root, turns) == None && Denotes(fs, [], comps + [name], q)
    ensures root <= q
  {
    ResolveIsReal(fs, [], comps, limit);
    DenotesAppend(fs, [], comps, [name], place, q);
    ChaseContains(fs, limit, turns, place, name, root, q);
  }

  lemma NoSegments(base: string)
    ensures Full(base, []) == base && Split(base) + [] == Split(base)
  {}

  lemma ResolveDenotes(fs: Tree, comps: seq<string>, limit: nat, q: seq<string>)
    requires WellFormed(fs) && Resolve(fs, [], comps, limit) == Ok(q)
    ensures IsReal(fs, q) && Denotes(fs, [], comps, q)
  {
    ResolveIsReal(fs, [], comps, limit);
  }

  lemma OnlyDenoted(fs: Tree, comps: seq<string>, limit: nat, place: seq<string>, q: seq<string>)
    requires Resolve(fs, [], comps, limit) == Ok(place) && Denotes(fs, [], comps, q)
    ensures q == place
  {
    DenotesOne(fs, [], comps, q, limit);
  }

  /** If guard returns: with no segments the base is inside the root; otherwise the parent directory
    * is; and with `follow` so is whatever the whole path denotes, symbolic links followed. */
  lemma GuardContains(fs: Tree, limit: nat, turns: nat, base: string, root: seq<string>, segments: seq<string>, follow: bool)
    returns (place: seq<string>)
    requires WellFormed(fs) && Absolute(base) && AllProper(segments)
    requires GuardResult(fs, limit, turns, base, root, segments, follow).Ok?
    ensures root <= place && IsReal(fs, place)
    ensures Denotes(fs, [], Split(base) + (if segments == [] then [] else segments[..|segments| - 1]), place)
    ensures follow || segments == [] ==>
      forall q :: Denotes(fs, [], Split(base) + segments, q) ==> root <= q
  {
    hide Denotes, Resolve, Chase, Split, Full, LastPart, Dirname, WellFormed, Absolute, IsReal;
    if segments == [] {
      NoSegments(base);
      place := Resolve(fs, [], Split(base), limit).value;
      ResolveDenotes(fs, Split(base), limit, place);
      forall q | Denotes(fs, [], Split(base), q) ensures root <= q {
        OnlyDenoted(fs, Split(base), limit, place, q);
      }
    } else {
      var last := |segments| - 1;
      ParentOfFull(fs, base, segments, limit);
      var comps := Split(base) + segments[..last];
      place := Resolve(fs, [], comps, limit).value;
      ResolveDenotes(fs, comps, limit, place);
      assert Split(base) + segments == comps + [segments[last]];
      if follow {
        forall q | Denotes(fs, [], comps + [segments[last]], q) ensures root <= q {
          GuardFollowed(fs, limit, turns, comps, segments[last], root, place, q);
        }
      }
    }
  }

  // ---- what guard answers, and when ------------------------------------------------------------

  /** What guard hands on spells the base followed by the segments. */
  lemma GuardAnswer(fs: Tree, limit: nat, turns: nat, base: string, root: seq<string>, segments: seq<string>, follow: bool)
    requires AllProper(segments) && GuardResult(fs, limit, turns, base, root, segments, follow).Ok?
    ensures Split(GuardResult(fs, limit, turns, base, root, segments, follow).value) == Split(base) + segments
  {
    hide Chase, Resolve, Split, Dirname, LastPart;
    SplitBase(base, segments);
  }

  /** Opening `name` in `dir` to create it stays inside the root: the name is absent, or it is a link
    * whose target's directories can be walked without leaving the root, and the same holds of the
    * target's last name there; at most `turns` names are looked at.  A link with an empty target is
    * let pass where it lies. */
  ghost predicate CreateStays(fs: Tree, dir: seq<string>, name: string, root: seq<string>, turns: nat, links: nat)
    decreases links
  {
    && turns > 0
    && (dir + [name] in fs ==>
          && fs[dir + [name]].Link?
          && var target := fs[dir + [name]].target;
             var start := if Absolute(target) then [] else dir;
             if target == "" then turns > 1 && root <= dir
             else
               && links > 0 && StaysInside(fs, start, Split(DirPart(target)), root)
               && var d := Resolve(fs, start, Split(DirPart(target)), links - 1);
                  d.Ok? && CreateStays(fs, d.value, LastPart(target), root, turns - 1, links - 1))
  }

  /** Resolution of a concatenation fails where its first part does, or goes on from there. */
  lemma {:induction false} ResolveInTurn(fs: Tree, dir: seq<string>, a: seq<string>, b: seq<string>, links: nat) returns (rest: nat)
    ensures rest <= links
    ensures
      match Resolve(fs, dir, a, links)
      case Err(e) => Resolve(fs, dir, a + b, links) == Err(e)
      case Ok(mid) => Resolve(fs, dir, a + b, links) == Resolve(fs, mid, b, rest)
    decreases links, |a|
  {
    rest := links;
    if a == [] {
      assert a + b == b;
    } else if dir in fs && fs[dir] == Directory {
      var tail := a[1..];
      assert (a + b)[0] == a[0] && (a + b)[1..] == tail + b;
      if a[0] == "" || a[0] == "." {
        rest := ResolveInTurn(fs, dir, tail, b, links);
      } else if a[0] == ".." {
        rest := ResolveInTurn(fs, Parent(dir), tail, b, links);
      } else if dir + [a[0]] in fs {
        match fs[dir + [a[0]]]
        case Link(target) =>
          if links > 0 && target != "" {
            assert Split(target) + (tail + b) == (Split(target) + tail) + b;
            rest := ResolveInTurn(fs, if Absolute(target) then [] else dir, Split(target) + tail, b, links - 1);
          }
        case _ => rest := ResolveInTurn(fs, dir + [a[0]], tail, b, links);
      }
    }
  }

  /** A target that denotes nothing misses a directory, or its last name there. */
  lemma MissingTarget(fs: Tree, start: seq<string>, target: string, links: nat)
    requires WellFormed(fs) && IsReal(fs, start) && fs[start] == Directory && target != ""
    requires Resolve(fs, start, Split(target), links) == Err(ENOENT)
    ensures
      match Resolve(fs, start, Split(DirPart(target)), links)
      case Err(e) => e == ENOENT
      case Ok(d) => IsReal(fs, d) && Resolve(fs, d, [LastPart(target)], links) == Err(ENOENT)
  {
    SplitLast(target);
    var dp, last := Split(DirPart(target)), LastPart(target);
    if LastSep(target) < 0 {
      assert dp == [""] && [""][1..] == [];
      assert Resolve(fs, start, dp, links) == Resolve(fs, start, [], links) == Ok(start);
    } else {
      hide Resolve, Split, LastPart, DirPart;
      var rest := ResolveInTurn(fs, start, dp, [last], links);
      if Resolve(fs, start, dp, links).Ok? {
        ResolveIsReal(fs, start, dp, links);
        MoreLinks(fs, Resolve(fs, start, dp, links).value, [last], rest, links);
      }
    }
  }

  /** A name that is missing is a proper one. */
  lemma MissingIsProper(fs: Tree, d: seq<string>, target: string, links: nat)
    requires Resolve(fs, d, [LastPart(target)], links) == Err(ENOENT)
    ensures Proper(LastPart(target))
  {
    var last := LastPart(target);
    var one: seq<string> := [last];
    assert one[1..] == [];
    assert forall k :: 0 <= k < |last| ==> last[k] == target[LastSep(target) + 1 + k];
  }

  /** A missing directory is missing for the walk too. */
  lemma WalkMisses(fs: Tree, limit: nat, start: seq<string>, comps: seq<string>, root: seq<string>, links: nat)
    requires WellFormed(fs) && IsReal(fs, start) && Resolve(fs, start, comps, links) == Err(ENOENT)
    ensures Walk(fs, limit, start, comps, root).Err?
  {
    hide Walk, Resolve;
    if Walk(fs, limit, start, comps, root).Ok? {
      var n := WalkOrNotDirectory(fs, limit, start, comps, root);
      if n <= links { MoreLinks(fs, start, comps, n, links); } else { MoreLinks(fs, start, comps, links, n); }
    }
  }

  /** A name that resolution misses is in a directory, and absent or a link. */
  lemma MissingName(fs: Tree, dir: seq<string>, name: string, links: nat)
    requires WellFormed(fs) && IsReal(fs, dir) && Proper(name) && Resolve(fs, dir, [name], links) == Err(ENOENT)
    ensures fs[dir] == Directory
    ensures dir + [name] in fs ==>
      && fs[dir + [name]].Link? && links > 0
      && var target := fs[dir + [name]].target;
         target != "" ==> Resolve(fs, if Absolute(target) then [] else dir, Split(target), links - 1) == Err(ENOENT)
  {
    assert [name][1..] == [];
    if dir + [name] in fs && fs[dir + [name]].Link? {
      assert Split(fs[dir + [name]].target) + [] == Split(fs[dir + [name]].target);
    }
  }

  lemma EmptyParts(target: string)
    requires target == ""
    ensures !Absolute(target) && DirPart(target) == "" && LastPart(target) == "" && Split(target) == [""]
  {}

  lemma WalkNowhere(fs: Tree, limit: nat, dir: seq<string>, comps: seq<string>, root: seq<string>)
    requires |comps| == 1 && comps[0] == ""
    ensures Walk(fs, limit, dir, comps, root) == Ok(dir)
  {
    assert Walk(fs, limit, dir, comps[1..], root) == Ok(dir);
  }

  lemma EmptyTarget(fs: Tree, limit: nat, dir: seq<string>, target: string, root: seq<string>)
    requires target == ""
    ensures LinkDir(fs, limit, dir, target, root) == Ok(dir) && LinkName(target) == ""
  {
    hide Split, LastPart, DirPart, Resolve, Walk;
    EmptyParts(target);
    WalkNowhere(fs, limit, dir, Split(DirPart(target)), root);
  }

  lemma ChaseEmptyTarget(fs: Tree, limit: nat, dir: seq<string>, name: string, root: seq<string>, turns: nat)
    requires Proper(name) && turns > 0 && Resolve(fs, dir, [name], limit) == Err(ENOENT)
    requires dir + [name] in fs && fs[dir + [name]] == Link("")
    ensures Chase(fs, limit, dir, name, root, turns) == None <==> turns > 1 && root <= dir
  {
    hide LinkDir, LinkName, Resolve;
    EmptyTarget(fs, limit, dir, "", root);
    ChaseTurnOf(fs, limit, dir, name, root, turns, "");
  }

  /** One turn of the chase on a link that leads nowhere yet. */
  lemma ChaseTurnOf(fs: Tree, limit: nat, dir: seq<string>, name: string, root: seq<string>, turns: nat, target: string)
    requires Proper(name) && turns > 0 && Resolve(fs, dir, [name], limit) == Err(ENOENT)
    requires dir + [name] in fs && fs[dir + [name]] == Link(target)
    ensures
      Chase(fs, limit, dir, name, root, turns) ==
      match LinkDir(fs, limit, dir, target, root)
      case Err(e) => Some(e)
      case Ok(d) => Chase(fs, limit, d, LinkName(target), root, turns - 1)
  {
    hide Resolve, LinkDir, LinkName;
  }

  /** Of a name that denotes nothing, the chase returns exactly if creating it stays inside. */
  lemma {:induction false} ChaseCreates(fs: Tree, limit: nat, dir: seq<string>, name: string, root: seq<string>, turns: nat, links: nat)
    requires WellFormed(fs) && IsReal(fs, dir) && Proper(name) && links <= limit
    requires Resolve(fs, dir, [name], links) == Err(ENOENT)
    ensures Chase(fs, limit, dir, name, root, turns) == None <==> CreateStays(fs, dir, name, root, turns, links)
    decreases links
  {
    MoreLinks(fs, dir, [name], links, limit);
    MissingName(fs, dir, name, links);
    if turns > 0 && dir + [name] in fs {
      hide Resolve, Split, Walk, StaysInside, LastPart, DirPart;
      var target := fs[dir + [name]].target;
      var start := if Absolute(target) then [] else dir;
      if target == "" {
        ChaseEmptyTarget(fs, limit, dir, name, root, turns);
      } else {
        MissingTarget(fs, start, target, links - 1);
        ChaseTurnOf(fs, limit, dir, name, root, turns, target);
        match Resolve(fs, start, Split(DirPart(target)), links - 1)
        case Err(_) => WalkMisses(fs, limit, start, Split(DirPart(target)), root, links - 1);
        case Ok(d) =>
          MissingIsProper(fs, d, target, links - 1);
          WalkIsResolution(fs, limit, start, Split(DirPart(target)), root, links - 1);
          ChaseCreates(fs, limit, d, LastPart(target), root, turns - 1, links - 1);
      }
    }
  }

  /** The rest of guard, once the parent is known to be `parent`. */
  ghost predicate FollowStays(fs: Tree, limit: nat, parent: seq<string>, name: string, root: seq<string>, turns: nat) {
    match Resolve(fs, parent, [name], limit)
    case Ok(q) => root <= q
    case Err(e) => e == ENOENT && CreateStays(fs, parent, name, root, turns, limit)
  }

  lemma ChaseReturnsIff(fs: Tree, limit: nat, parent: seq<string>, name: string, root: seq<string>, turns: nat)
    requires WellFormed(fs) && IsReal(fs, parent) && Proper(name) && turns > 0
    ensures Chase(fs, limit, parent, name, root, turns) == None <==> FollowStays(fs, limit, parent, name, root, turns)
    ensures
      match Resolve(fs, parent, [name], limit)
      case Ok(q) => !(root <= q) ==> Chase(fs, limit, parent, name, root, turns) == Some(EPERM)
      case Err(e) => e != ENOENT ==> Chase(fs, limit, parent, name, root, turns) == Some(e)
  {
    hide Resolve, CreateStays;
    if Resolve(fs, parent, [name], limit) == Err(ENOENT) {
      ChaseCreates(fs, limit, parent, name, root, turns, limit);
    }
  }

  /** Guard returns exactly if the parent, or with no segments the base, denotes a place inside the
    * root, and with `follow` the whole path denotes a place inside it or nothing whose creation would
    * leave it.  Otherwise it throws EPERM for what is outside, and passes other errors on. */
  lemma GuardReturnsIff(fs: Tree, limit: nat, turns: nat, base: string, root: seq<string>, segments: seq<string>, follow: bool)
    requires WellFormed(fs) && Absolute(base) && AllProper(segments) && turns > 0
    ensures
      var result := GuardResult(fs, limit, turns, base, root, segments, follow);
      if segments == [] then
        match Resolve(fs, [], Split(base), limit)
        case Err(e) => result == Err(e)
        case Ok(q) => if root <= q then result == Ok(base) else result == Err(EPERM)
      else
        var name := segments[|segments| - 1];
        match Resolve(fs, [], Split(base) + segments[..|segments| - 1], limit)
        case Err(e) => result == Err(e)
        case Ok(parent) =>
          if !(root <= parent) then result == Err(EPERM)
          else
            && (result.Ok? <==> follow ==> FollowStays(fs, limit, parent, name, root, turns))
            && (follow ==>
                  match Resolve(fs, parent, [name], limit)
                  case Ok(q) => !(root <= q) ==> result == Err(EPERM)
                  case Err(e) => e != ENOENT ==> result == Err(e))
  {
    hide Resolve, Chase, Split, Full, LastPart, Dirname, FollowStays;
    if segments == [] {
      NoSegments(base);
    } else {
      ParentOfFull(fs, base, segments, limit);
      var comps := Split(base) + segments[..|segments| - 1];
      if Resolve(fs, [], comps, limit).Ok? {
        var parent := Resolve(fs, [], comps, limit).value;
        ResolveIsReal(fs, [], comps, limit);
        ChaseReturnsIff(fs, limit, parent, segments[|segments| - 1], root, turns);
      }
    }
  }

  // ---- where a create lands ----------------------------------------------------------------

  predicate AllTrivial(comps: seq<string>) {
    forall i :: 0 <= i < |comps| ==> Trivial(comps[i])
  }

  /** Following a target puts the directory at the top without any component to check, or leaves
    * it there. */
  predicate AtTop(target: string, top: bool) {
    AllTrivial(Split(DirPart(target))) && (Absolute(target) || top)
  }

  /** Where opening `name` in `dir` to create it makes the file: a name that is absent is made in
    * its directory, a dangling link is followed.  With it, whether the directory was last set by
    * an absolute target with nothing between its separators. */
  function Landing(fs: Tree, dir: seq<string>, name: string, links: nat, top: bool): Option<(seq<string>, bool)>
    decreases links
  {
    if dir !in fs || fs[dir] != Directory then None
    else if dir + [name] !in fs then Some((dir, top))
    else match fs[dir + [name]]
      case Link(target) =>
        if links == 0 || !Proper(LastPart(target)) then None
        else
          (match Resolve(fs, if Absolute(target) then [] else dir, Split(DirPart(target)), links - 1)
           case Err(_) => None
           case Ok(d) => Landing(fs, d, LastPart(target), links - 1, AtTop(target, top)))
      case _ => None
  }

  /** The components of a target are those of its directory part, if any, and the last. */
  lemma TargetComponents(fs: Tree, dir: seq<string>, target: string, links: nat, d: seq<string>)
    requires WellFormed(fs) && IsReal(fs, dir) && fs[dir] == Directory
    requires Resolve(fs, dir, Split(DirPart(target)), links) == Ok(d)
    ensures Denotes(fs, dir, if LastSep(target) < 0 then [] else Split(DirPart(target)), d)
  {
    if LastSep(target) < 0 {
      assert Split(DirPart(target)) == [""] && [""][1..] == [];
      assert Resolve(fs, dir, [], links) == Ok(d);
    }
  }

  /** The link case of Landing. */
  lemma LandingIsLink(fs: Tree, dir: seq<string>, name: string, links: nat, top: bool)
    requires dir + [name] in fs && Landing(fs, dir, name, links, top).Some?
    ensures dir in fs && fs[dir] == Directory && links > 0
    ensures fs[dir + [name]].Link? && Proper(LastPart(fs[dir + [name]].target))
  {
    hide Resolve, Split, LastPart;
  }

  lemma LandingStep(fs: Tree, dir: seq<string>, name: string, links: nat, top: bool, target: string, start: seq<string>)
    returns (d: seq<string>)
    requires WellFormed(fs) && IsReal(fs, dir) && dir + [name] in fs && Landing(fs, dir, name, links, top).Some?
    requires fs[dir + [name]] == Link(target) && start == (if Absolute(target) then [] else dir) && links > 0
    ensures IsReal(fs, start) && fs[start] == Directory && IsReal(fs, d)
    ensures Resolve(fs, start, Split(DirPart(target)), links - 1) == Ok(d)
    ensures Landing(fs, dir, name, links, top) == Landing(fs, d, LastPart(target), links - 1, AtTop(target, top))
  {
    hide Resolve, Split;
    d := Resolve(fs, start, Split(DirPart(target)), links - 1).value;
    ResolveIsReal(fs, start, Split(DirPart(target)), links - 1);
  }

  /** A name that is a link denotes what its target denotes. */
  lemma ResolveLink(fs: Tree, dir: seq<string>, name: string, target: string, limit: nat)
    requires dir in fs && fs[dir] == Directory && Proper(name) && dir + [name] in fs && fs[dir + [name]] == Link(target)
    requires Resolve(fs, dir, [name], limit).Ok?
    ensures limit > 0
    ensures Resolve(fs, dir, [name], limit) == Resolve(fs, if Absolute(target) then [] else dir, Split(target), limit - 1)
  {
    assert [name][1..] == [] && Split(target) + [] == Split(target);
  }

  /** The absent case of Landing. */
  lemma AbsentName(fs: Tree, dir: seq<string>, name: string, links: nat, top: bool, limit: nat)
    requires Proper(name) && dir + [name] !in fs && Landing(fs, dir, name, links, top).Some?
    ensures Landing(fs, dir, name, links, top) == Some((dir, top)) && !Resolve(fs, dir, [name], limit).Ok?
  {
  }

  /** Resolving a target ends with its last component, in what its directory part denotes. */
  lemma TargetLast(fs: Tree, start: seq<string>, target: string, links: nat, d: seq<string>, limit: nat) returns (rest: nat)
    requires WellFormed(fs) && IsReal(fs, start) && fs[start] == Directory
    requires Resolve(fs, start, Split(DirPart(target)), links) == Ok(d) && Resolve(fs, start, Split(target), limit).Ok?
    ensures Resolve(fs, d, [LastPart(target)], rest).Ok?
  {
    hide Resolve, Split, LastPart, DirPart, WellFormed, IsReal;
    TargetComponents(fs, start, target, links, d);
    SplitLast(target);
    var comps := if LastSep(target) < 0 then [] else Split(DirPart(target));
    assert Split(target) == comps + [LastPart(target)];
    var mid, more := ResolveAppend(fs, start, comps, [LastPart(target)], limit);
    DenotesOne(fs, start, comps, d, limit);
    rest := more;
  }

  /** A name at which a create lands denotes nothing yet. */
  lemma {:induction false} LandingDangles(fs: Tree, dir: seq<string>, name: string, links: nat, top: bool, limit: nat)
    requires WellFormed(fs) && IsReal(fs, dir) && Proper(name) && Landing(fs, dir, name, links, top).Some?
    ensures !Resolve(fs, dir, [name], limit).Ok?
    decreases links
  {
    hide Landing, Resolve, Split, AtTop;
    if dir + [name] !in fs {
      AbsentName(fs, dir, name, links, top, limit);
    } else if Resolve(fs, dir, [name], limit).Ok? {
      LandingIsLink(fs, dir, name, links, top);
      var target := fs[dir + [name]].target;
      var start := if Absolute(target) then [] else dir;
      var d := LandingStep(fs, dir, name, links, top, target, start);
      ResolveLink(fs, dir, name, target, limit);
      var rest := TargetLast(fs, start, target, links - 1, d, limit - 1);
      LandingDangles(fs, d, LastPart(target), links - 1, AtTop(target, top), rest);
    }
  }

  /** The link case of Chase, for a target whose last component is a name. */
  lemma ChaseLink(fs: Tree, limit: nat, dir: seq<string>, name: string, root: seq<string>, turns: nat, target: string)
    returns (walked: seq<string>)
    requires Proper(name) && dir + [name] in fs && fs[dir + [name]] == Link(target) && Proper(LastPart(target))
    requires Chase(fs, limit, dir, name, root, turns) == None && !Resolve(fs, dir, [name], limit).Ok?
    ensures turns > 0
    ensures Walk(fs, limit, if Absolute(target) then [] else dir, Split(DirPart(target)), root) == Ok(walked)
    ensures Chase(fs, limit, walked, LastPart(target), root, turns - 1) == None
  {
    hide Resolve, Split, Walk;
    walked := Walk(fs, limit, if Absolute(target) then [] else dir, Split(DirPart(target)), root).value;
  }

  /** Where both answer, walk and resolution agree; the walk stayed put or ended inside. */
  lemma WalkFindsResolution(fs: Tree, limit: nat, start: seq<string>, comps: seq<string>, root: seq<string>, links: nat)
    requires WellFormed(fs) && IsReal(fs, start)
    requires Walk(fs, limit, start, comps, root).Ok? && Resolve(fs, start, comps, links).Ok?
    ensures Walk(fs, limit, start, comps, root) == Resolve(fs, start, comps, links)
    ensures
      var d := Resolve(fs, start, comps, links).value;
      if AllTrivial(comps) then d == start else root <= d
  {
    hide Walk, Resolve;
    WalkIsReal(fs, limit, start, comps, root);
    var n := WalkOrNotDirectory(fs, limit, start, comps, root);
    var d := Resolve(fs, start, comps, links).value;
    assert Denotes(fs, start, comps, d);
    DenotesOne(fs, start, comps, d, n);
  }

  /** When the chase returns and a create would land somewhere, it lands inside the root, or at the
    * top directory if the last target to set the directory was absolute and bare. */
  lemma {:induction false} ChaseLands(
    fs: Tree, limit: nat, dir: seq<string>, name: string, root: seq<string>, turns: nat, links: nat, top: bool)
    requires WellFormed(fs) && IsReal(fs, dir) && Proper(name)
    requires if top then dir == [] else root <= dir
    requires Chase(fs, limit, dir, name, root, turns) == None && Landing(fs, dir, name, links, top).Some?
    ensures
      var (land, atTop) := Landing(fs, dir, name, links, top).value;
      if atTop then land == [] else root <= land
    decreases links
  {
    hide Landing, Resolve, Split, Walk, Chase;
    LandingDangles(fs, dir, name, links, top, limit);
    if dir + [name] !in fs {
      AbsentName(fs, dir, name, links, top, limit);
    } else {
      LandingIsLink(fs, dir, name, links, top);
      var target := fs[dir + [name]].target;
      var start := if Absolute(target) then [] else dir;
      var d := LandingStep(fs, dir, name, links, top, target, start);
      var walked := ChaseLink(fs, limit, dir, name, root, turns, target);
      WalkFindsResolution(fs, limit, start, Split(DirPart(target)), root, links - 1);
      ChaseLands(fs, limit, d, LastPart(target), root, turns - 1, links - 1, AtTop(target, top));
    }
  }

  /** If guard returns with `follow` and opening the path to create it would make a file, then that
    * happens inside the root if and only if the chain of links does not end, before any component
    * that moves, at an absolute target of the form "/name" (the root "/" itself apart). */
  lemma GuardLanding(fs: Tree, limit: nat, turns: nat, base: string, root: seq<string>, segments: seq<string>, parent: seq<string>, links: nat)
    requires WellFormed(fs) && Absolute(base) && AllProper(segments) && segments != []
    requires GuardResult(fs, limit, turns, base, root, segments, true).Ok?
    requires Denotes(fs, [], Split(base) + segments[..|segments| - 1], parent)
    requires Landing(fs, parent, segments[|segments| - 1], links, false).Some?
    ensures
      var (land, atTop) := Landing(fs, parent, segments[|segments| - 1], links, false).value;
      root <= land <==> !atTop || root == []
  {
    var comps := Split(base) + segments[..|segments| - 1];
    ParentOfFull(fs, base, segments, limit);
    DenotesOne(fs, [], comps, parent, limit);
    ResolveIsReal(fs, [], comps, limit);
    ChaseLands(fs, limit, parent, segments[|segments| - 1], root, turns, links, false);
  }

  /** With relative targets only, a create lands inside the root. */
  lemma {:induction false} RelativeTargetsStayBelow(fs: Tree, dir: seq<string>, name: string, links: nat)
    requires Landing(fs, dir, name, links, false).Some?
    requires forall p :: p in fs && fs[p].Link? ==> !Absolute(fs[p].target)
    ensures !Landing(fs, dir, name, links, false).value.1
    decreases links
  {
    hide Resolve, Split, DirPart, LastPart;
    if dir + [name] in fs {
      var target := fs[dir + [name]].target;
      var d := Resolve(fs, dir, Split(DirPart(target)), links - 1).value;
      assert !AtTop(target, false);
      RelativeTargetsStayBelow(fs, d, LastPart(target), links - 1);
    }
  }

  // The exception is real: a link "l" to "/n" in the root "/r", where "/n" does not exist.

  const EXAMPLE: Tree := map[[] := Directory, ["r"] := Directory, ["r", "l"] := Link("/n")]

  lemma ExampleIsWellFormed()
    ensures WellFormed(EXAMPLE) && IsReal(EXAMPLE, ["r"])
  {
    forall p ensures Entry(EXAMPLE, p) {
      if p == ["r", "l"] { assert Parent(p) == ["r"]; }
      if p == ["r"] { assert Parent(p) == []; }
    }
  }

  lemma ExampleText()
    ensures DirPart("/n") == "" && LastPart("/n") == "n" && Split("") == [""]
    ensures Split("/n") == ["", "n"] && Split("/r") == ["", "r"]
  {
    assert "" + [SEP] + "n" == "/n" && "" + [SEP] + "r" == "/r";
    LastPartOfName("", "n");
    SplitInTwo("", "n");
    SplitInTwo("", "r");
  }

  lemma ExampleResolves(limit: nat)
    ensures Resolve(EXAMPLE, [], ["", "r"], limit) == Ok(["r"])
    ensures Resolve(EXAMPLE, [], [""], limit) == Ok([])
    ensures Resolve(EXAMPLE, [], ["n"], limit) == Err(ENOENT)
    ensures Resolve(EXAMPLE, [], ["", "n"], limit) == Err(ENOENT)
  {
    assert [] + ["r"] == ["r"] && [] + ["n"] == ["n"];
    assert ["", "r"][1..] == ["r"] && ["r"][1..] == [] && ["", "n"][1..] == ["n"] && [""][1..] == [];
    assert Resolve(EXAMPLE, [], ["r"], limit) == Resolve(EXAMPLE, ["r"], [], limit) == Ok(["r"]);
  }

  lemma ExampleLink(limit: nat)
    requires limit > 0
    ensures Resolve(EXAMPLE, ["r"], ["l"], limit) == Err(ENOENT)
    ensures LinkDir(EXAMPLE, limit, ["r"], "/n", ["r"]) == Ok([]) && LinkName("/n") == "n"
  {
    ExampleText();
    ExampleResolves(limit - 1);
    assert ["r"] + ["l"] == ["r", "l"] && ["l"][1..] == [] && Split("/n") + [] == ["", "n"];
    assert [""][1..] == [];
    assert Walk(EXAMPLE, limit, [], [""], ["r"]) == Walk(EXAMPLE, limit, [], [], ["r"]) == Ok([]);
  }

  lemma ExampleChase(limit: nat, turns: nat)
    requires limit > 0 && turns >= 2
    ensures Chase(EXAMPLE, limit, ["r"], "l", ["r"], turns) == None
  {
    ExampleLink(limit);
    ExampleResolves(limit);
    assert ["r"] + ["l"] == ["r", "l"] && [] + ["n"] == ["n"];
    assert Chase(EXAMPLE, limit, [], "n", ["r"], turns - 1) == None;
  }

  /** On it guard returns, and a create through the link lands at the top. */
  lemma BareTargetExample(limit: nat, turns: nat)
    requires limit > 0 && turns >= 2
    ensures GuardResult(EXAMPLE, limit, turns, "/r", ["r"], ["l"], true).Ok?
    ensures Landing(EXAMPLE, ["r"], "l", 1, false) == Some(([], true))
  {
    ExampleIsWellFormed();
    ExampleText();
    ExampleResolves(limit);
    ExampleResolves(0);
    ExampleChase(limit, turns);
    ParentOfFull(EXAMPLE, "/r", ["l"], limit);
    assert ["", "r"] + ["l"][..0] == ["", "r"];
    assert ["r"] + ["l"] == ["r", "l"] && [] + ["n"] == ["n"];
    assert Landing(EXAMPLE, [], "n", 0, true) == Some(([], true));
  }
}
