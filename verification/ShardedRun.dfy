/** ct-runner/src/run-suite.ts: the case loop of runSuite and findByName.
  *
  * What running a case leads to is given with the case.  Durations, log lines and the race of a case
  * against its timeout are not modelled; a case that ran out of time is one of the outcomes.
  */
module ShardedRun {
  import opened Prelude
  import opened TagsRecords

  datatype Outcome =
    | Returned | Failed(detail: string) | Skipped(detail: string)
    | BadPayload(text: string) | Trapped(text: string) | TimedOut

  datatype Case = Case(name: string, outcome: Outcome, diagnostics: seq<string>)

  datatype Status = Pass | Fail | Skip | NotApplicable | Deselected

  datatype Provenance = NoProvenance | ByReturn | ByTrap | ByTimeout

  datatype Row = Row(
    name: string, status: Status, provenance: Provenance, detail: Option<string>,
    complete: Option<bool>, diagnostics: seq<string>)

  datatype Line = Envelope | RowLine(row: Row, index: nat) | SegmentEnd

  datatype Counts = Counts(
    passed: nat, failed: nat, skipped: nat, na: nat, deselected: nat, selected: nat, total: nat)

  const ZERO: Counts := Counts(0, 0, 0, 0, 0, 0, 0)

  datatype Shard = Shard(index: int, count: int)

  datatype RunError = BadShard | MissingWithoutInventory | NoCases | Drift(name: string) | Vanished(name: string) | EmptySelection

  /** The options and what the suite shows: an empty `only` selects everything; reruns is the list of
    * cases that each re-enumeration gives, None when one instance runs them all. */
  datatype Suite = Suite(
    census: seq<Case>, inventory: Option<Inventory>, missing: Option<seq<string>>, only: string,
    reruns: Option<seq<seq<Case>>>)

  // ---- findByName ------------------------------------------------------------------------------

  function Scan(list: seq<Case>, name: string): (r: Option<Case>)
    ensures r.Some? ==> r.value in list && r.value.name == name
    ensures r.None? ==> forall i :: 0 <= i < |list| ==> list[i].name != name
  {
    if list == [] then None
    else if list[0].name == name then Some(list[0])
    else Scan(list[1..], name)
  }

  function Found(list: seq<Case>, name: string, hint: nat): Option<Case> {
    if hint < |list| && list[hint].name == name then Some(list[hint]) else Scan(list, name)
  }

  method FindByName(list: seq<Case>, name: string, hint: nat) returns (r: Option<Case>)
    ensures r == Found(list, name, hint)
  {
    if hint < |list| {
      var candidate := list[hint];
      if candidate.name == name { return Some(candidate); }
    }
    for i := 0 to |list|
      invariant Scan(list, name) == Scan(list[i..], name)
    {
      if list[i].name == name { return Some(list[i]); }
    }
    return None;
  }

  ghost predicate DistinctNames(list: seq<Case>) {
    forall i, j :: 0 <= i < j < |list| ==> list[i].name != list[j].name
  }

  /** When names are distinct the hint changes nothing, wherever it points. */
  lemma {:induction false} HintIsScan(list: seq<Case>, name: string, hint: nat)
    requires DistinctNames(list)
    ensures Found(list, name, hint) == Scan(list, name)
  {
    if 0 < hint < |list| {
      if list[0].name != name {
        HintIsScan(list[1..], name, hint - 1);
      }
    }
  }

  // ---- one case --------------------------------------------------------------------------------

  predicate IsSelected(suite: Suite, name: string) {
    suite.only == "" || Contains(name, suite.only)
  }

  predicate Contains(s: string, part: string) {
    exists i :: 0 <= i <= |s| && StartsWith(s[i..], part)
  }

  function OutcomeRow(c: Case): Row {
    match c.outcome
    case Returned => Row(c.name, Pass, ByReturn, None, Some(true), c.diagnostics)
    case Failed(d) => Row(c.name, Fail, ByReturn, Some(d), Some(true), c.diagnostics)
    case Skipped(d) => Row(c.name, Skip, ByReturn, Some(d), Some(true), c.diagnostics)
    case BadPayload(t) =>
      Row(c.name, Fail, ByTrap, Some("run() rejected with an unrecognized outcome payload: " + t), Some(false), c.diagnostics)
    case Trapped(t) => Row(c.name, Fail, ByTrap, Some("trap: " + t), Some(false), c.diagnostics)
    case TimedOut => Row(c.name, Fail, ByTimeout, Some("case timeout exceeded"), Some(false), c.diagnostics)
  }

  function MissingOf(suite: Suite): seq<string> {
    if suite.missing.Some? then suite.missing.value else []
  }

  /** The row of the i-th case, or what the run throws on reaching it. */
  function RowOf(suite: Suite, i: nat): Result<Row, RunError>
    requires i < |suite.census|
    requires suite.reruns.Some? ==> |suite.reruns.value| == |suite.census|
  {
    var name := suite.census[i].name;
    var tags := if suite.inventory.Some? then Covering(suite.inventory.value, name) else Some([]);
    if tags.None? then Err(Drift(name))
    else if !Applies(tags.value, MissingOf(suite)) then
      Ok(Row(name, NotApplicable, NoProvenance, Some(FirstExcluding(tags.value, MissingOf(suite))), Some(true), []))
    else if !IsSelected(suite, name) then
      Ok(Row(name, Deselected, NoProvenance, Some("only " + suite.only), None, []))
    else if suite.reruns.None? then Ok(OutcomeRow(suite.census[i]))
    else
      var match_ := Found(suite.reruns.value[i], name, i);
      if match_.None? then Err(Vanished(name)) else Ok(OutcomeRow(match_.value))
  }

  /** A row, and whether the case was selected. */
  datatype Counted = Counted(row: Row, selected: bool)

  type Verdict = Result<Counted, RunError>

  /** One re-enumeration for each case of the census. */
  predicate Enumerated(suite: Suite) {
    suite.reruns.Some? ==> |suite.reruns.value| == |suite.census|
  }

  function VerdictOf(suite: Suite, i: nat): Verdict
    requires i < |suite.census| && Enumerated(suite)
  {
    var row := RowOf(suite, i);
    if row.Err? then Err(row.error) else Ok(Counted(row.value, IsSelected(suite, suite.census[i].name)))
  }

  function Verdicts(suite: Suite): (r: seq<Verdict>)
    requires Enumerated(suite)
    ensures |r| == |suite.census| && forall i :: 0 <= i < |r| ==> r[i] == VerdictOf(suite, i)
  {
    seq(|suite.census|, i requires 0 <= i < |suite.census| => VerdictOf(suite, i))
  }

  // ---- a run -----------------------------------------------------------------------------------

  function StripeOf(i: nat, count: int): (k: int)
    requires count >= 1
    ensures 0 <= k < count
  {
    i % count
  }

  predicate InStripe(i: nat, shard: Option<Shard>) {
    shard.None? || (shard.value.count >= 1 && StripeOf(i, shard.value.count) == shard.value.index)
  }

  function Tally(c: Counts, status: Status, selected: bool): Counts {
    var d := c.(total := c.total + 1, selected := c.selected + if selected then 1 else 0);
    match status
    case Pass => d.(passed := d.passed + 1)
    case Fail => d.(failed := d.failed + 1)
    case Skip => d.(skipped := d.skipped + 1)
    case NotApplicable => d.(na := d.na + 1)
    case Deselected => d.(deselected := d.deselected + 1)
  }

  datatype Progress = Progress(lines: seq<Line>, counts: Counts, error: Option<RunError>)

  function Add(p: Progress, v: Verdict, i: nat): Progress {
    if v.Err? then p.(error := Some(v.error))
    else Progress(p.lines + [RowLine(v.value.row, i)], Tally(p.counts, v.value.row.status, v.value.selected), None)
  }

  /** The rows and counts after the first n cases of the census, up to the first that throws. */
  function Ran(verdicts: seq<Verdict>, shard: Option<Shard>, n: nat): Progress
    requires n <= |verdicts|
  {
    if n == 0 then Progress([], ZERO, None)
    else
      var before := Ran(verdicts, shard, n - 1);
      if before.error.Some? || !InStripe(n - 1, shard) then before else Add(before, verdicts[n - 1], n - 1)
  }

  datatype Finished = Finished(lines: seq<Line>, result: Result<Counts, RunError>)

  predicate ShardValid(shard: Option<Shard>) {
    shard.Some? ==> shard.value.count >= 1 && 0 <= shard.value.index < shard.value.count
  }

  /** Everything that runSuite emits and returns or throws. */
  function Outcomes(suite: Suite, shard: Option<Shard>): Finished
    requires Enumerated(suite)
  {
    if !ShardValid(shard) then Finished([], Err(BadShard))
    else if suite.inventory.None? && suite.missing.Some? then Finished([], Err(MissingWithoutInventory))
    else if suite.census == [] then Finished([Envelope], Err(NoCases))
    else Ended(Ran(Verdicts(suite), shard, |suite.census|), suite.only != "" && shard.None?)
  }

  function Ended(end: Progress, mustSelect: bool): Finished {
    if end.error.Some? then Finished([Envelope] + end.lines, Err(end.error.value))
    else if mustSelect && end.counts.selected == 0 then Finished([Envelope] + end.lines, Err(EmptySelection))
    else Finished([Envelope] + end.lines + [SegmentEnd], Ok(end.counts))
  }

  class Output {
    var lines: seq<Line>

    constructor ()
      ensures lines == []
    {
      lines := [];
    }

    method Emit(line: Line)
      modifies this
      ensures lines == old(lines) + [line]
    {
      lines := lines + [line];
    }
  }

  lemma ErrorStays(verdicts: seq<Verdict>, shard: Option<Shard>, n: nat, m: nat)
    requires n <= m <= |verdicts| && Ran(verdicts, shard, n).error.Some?
    ensures Ran(verdicts, shard, m) == Ran(verdicts, shard, n)
  {}

  /** Runs one case that is due: emits its row, and counts it. */
  method RunCase(suite: Suite, i: nat, counts: Counts, out: Output) returns (r: Result<Counts, RunError>)
    requires i < |suite.census| && Enumerated(suite)
    modifies out
    ensures var v := VerdictOf(suite, i);
      && out.lines == old(out.lines) + (if v.Ok? then [RowLine(v.value.row, i)] else [])
      && r == if v.Err? then Err(v.error) else Ok(Tally(counts, v.value.row.status, v.value.selected))
  {
    var testCase := suite.census[i];
    var name := testCase.name;
    var c := counts;
    c := c.(total := c.total + 1);
    var isSelected := IsSelected(suite, name);
    if isSelected { c := c.(selected := c.selected + 1); }
    if suite.inventory.Some? {
      var tags := Covering(suite.inventory.value, name);
      if tags.None? { return Err(Drift(name)); }
      if !Applies(tags.value, MissingOf(suite)) {
        c := c.(na := c.na + 1);
        var detail := FirstExcluding(tags.value, MissingOf(suite));
        out.Emit(RowLine(Row(name, NotApplicable, NoProvenance, Some(detail), Some(true), []), i));
        return Ok(c);
      }
    }
    if !isSelected {
      c := c.(deselected := c.deselected + 1);
      out.Emit(RowLine(Row(name, Deselected, NoProvenance, Some("only " + suite.only), None, []), i));
      return Ok(c);
    }
    var executed := testCase;
    if suite.reruns.Some? {
      var found := FindByName(suite.reruns.value[i], name, i);
      if found.None? { return Err(Vanished(name)); }
      executed := found.value;
    }
    match executed.outcome {
      case Returned => c := c.(passed := c.passed + 1);
      case Skipped(_) => c := c.(skipped := c.skipped + 1);
      case _ => c := c.(failed := c.failed + 1);
    }
    out.Emit(RowLine(OutcomeRow(executed), i));
    return Ok(c);
  }

  method RunCases(suite: Suite, shard: Option<Shard>, out: Output) returns (r: Result<Counts, RunError>)
    requires Enumerated(suite) && ShardValid(shard)
    modifies out
    ensures var end := Ran(Verdicts(suite), shard, |suite.census|);
      && out.lines == old(out.lines) + end.lines
      && r == if end.error.Some? then Err(end.error.value) else Ok(end.counts)
  {
    hide VerdictOf, Tally;
    var counts := ZERO;
    ghost var start := out.lines;
    ghost var verdicts := Verdicts(suite);
    for i := 0 to |suite.census|
      invariant var p := Ran(verdicts, shard, i);
        p.error.None? && p.counts == counts && out.lines == start + p.lines
    {
      if shard.Some? && i % shard.value.count != shard.value.index { continue; }
      var one := RunCase(suite, i, counts, out);
      assert InStripe(i, shard);
      if one.Err? {
        ErrorStays(verdicts, shard, i + 1, |suite.census|);
        return Err(one.error);
      }
      counts := one.value;
    }
    return Ok(counts);
  }

  /** Emits the envelope, the rows of the stripe and the terminator. */
  method RunSuite(suite: Suite, shard: Option<Shard>, out: Output) returns (r: Result<Counts, RunError>)
    requires Enumerated(suite)
    modifies out
    ensures out.lines == old(out.lines) + Outcomes(suite, shard).lines
    ensures r == Outcomes(suite, shard).result
  {
    hide Ran, VerdictOf;
    if shard.Some? {
      if shard.value.count < 1 { return Err(BadShard); }
      if shard.value.index < 0 || shard.value.index >= shard.value.count { return Err(BadShard); }
    }
    if suite.inventory.None? && suite.missing.Some? { return Err(MissingWithoutInventory); }
    out.Emit(Envelope);
    if |suite.census| == 0 { return Err(NoCases); }
    r := RunCases(suite, shard, out);
    if r.Err? { return r; }
    if suite.only != "" && shard.None? && r.value.selected == 0 { return Err(EmptySelection); }
    out.Emit(SegmentEnd);
  }

  // ---- what counts and rows mean ---------------------------------------------------------------

  /** The rows with this status. */
  function OfStatus(lines: seq<Line>, status: Status): nat {
    if lines == [] then 0
    else
      var last := lines[|lines| - 1];
      OfStatus(lines[..|lines| - 1], status) + if last.RowLine? && last.row.status == status then 1 else 0
  }

  /** Each bucket is the number of rows with its status, and the buckets add up to the total. */
  ghost predicate CountsRows(c: Counts, lines: seq<Line>) {
    && c.passed == OfStatus(lines, Pass) && c.failed == OfStatus(lines, Fail) && c.skipped == OfStatus(lines, Skip)
    && c.na == OfStatus(lines, NotApplicable) && c.deselected == OfStatus(lines, Deselected)
    && c.passed + c.failed + c.skipped + c.na + c.deselected == c.total == |lines|
    && c.selected + c.deselected <= c.total
  }

  lemma OneMoreRow(c: Counts, lines: seq<Line>, row: Row, i: nat, selected: bool)
    requires CountsRows(c, lines) && (row.status == Deselected ==> !selected)
    ensures CountsRows(Tally(c, row.status, selected), lines + [RowLine(row, i)])
  {
    assert (lines + [RowLine(row, i)])[..|lines|] == lines;
  }

  /** No selected case is reported as deselected. */
  ghost predicate Honest(verdicts: seq<Verdict>) {
    forall i :: 0 <= i < |verdicts| && verdicts[i].Ok? ==>
      verdicts[i].value.row.status == Deselected ==> !verdicts[i].value.selected
  }

  lemma VerdictsAreHonest(suite: Suite)
    requires Enumerated(suite)
    ensures Honest(Verdicts(suite))
  {
    forall i | 0 <= i < |suite.census| && VerdictOf(suite, i).Ok?
      ensures VerdictOf(suite, i).value.row.status == Deselected ==> !VerdictOf(suite, i).value.selected
    {}
  }

  lemma CountsAdd(p: Progress, v: Verdict, i: nat)
    requires CountsRows(p.counts, p.lines)
    requires v.Ok? && v.value.row.status == Deselected ==> !v.value.selected
    ensures CountsRows(Add(p, v, i).counts, Add(p, v, i).lines)
  {
    hide CountsRows, Tally;
    if v.Ok? { OneMoreRow(p.counts, p.lines, v.value.row, i, v.value.selected); }
  }

  lemma RanStep(verdicts: seq<Verdict>, shard: Option<Shard>, n: nat)
    requires n < |verdicts|
    ensures var before := Ran(verdicts, shard, n);
      Ran(verdicts, shard, n + 1)
      == if before.error.Some? || !InStripe(n, shard) then before else Add(before, verdicts[n], n)
  {}

  lemma {:induction false} CountsAreRows(verdicts: seq<Verdict>, shard: Option<Shard>, n: nat)
    requires n <= |verdicts| && Honest(verdicts)
    ensures CountsRows(Ran(verdicts, shard, n).counts, Ran(verdicts, shard, n).lines)
  {
    hide Ran, CountsRows, Add, InStripe;
    if n == 0 {
      NoRows(verdicts, shard);
    } else {
      CountsAreRows(verdicts, shard, n - 1);
      RanStep(verdicts, shard, n - 1);
      CountsAdd(Ran(verdicts, shard, n - 1), verdicts[n - 1], n - 1);
    }
  }

  lemma NoRows(verdicts: seq<Verdict>, shard: Option<Shard>)
    ensures CountsRows(Ran(verdicts, shard, 0).counts, Ran(verdicts, shard, 0).lines)
  {}

  /** In every run that ends well, every counted case has its row and the reverse. */
  lemma CountsAddUp(suite: Suite, shard: Option<Shard>)
    requires Enumerated(suite) && Outcomes(suite, shard).result.Ok?
    ensures exists rows :: Outcomes(suite, shard).lines == [Envelope] + rows + [SegmentEnd]
                        && CountsRows(Outcomes(suite, shard).result.value, rows)
  {
    VerdictsAreHonest(suite);
    hide CountsRows, VerdictOf;
    CountsAreRows(Verdicts(suite), shard, |suite.census|);
    var rows := Ran(Verdicts(suite), shard, |suite.census|).lines;
    assert Outcomes(suite, shard).lines == [Envelope] + rows + [SegmentEnd];
  }

  // ---- what becomes of a case ------------------------------------------------------------------

  /** The case belongs to the stripe of this run. */
  ghost predicate Due(shard: Option<Shard>, i: nat) {
    shard.None? || (shard.value.count >= 1 && i % shard.value.count == shard.value.index)
  }

  /** There is no filter, or the name has it somewhere inside. */
  ghost predicate Asked(suite: Suite, name: string) {
    suite.only == "" || exists a: string, b: string :: name == a + suite.only + b
  }

  /** The marks allow the case: no feature it asks for is missing, and every feature that it asks to
    * be absent is. */
  ghost predicate Allowed(marks: seq<string>, missing: seq<string>) {
    && (forall f :: f in marks && (f == "" || f[0] != '!') ==> f !in missing)
    && (forall f: string :: "!" + f in marks ==> f in missing)
  }

  /** The inventory has no record that covers the case. */
  ghost predicate Uncovered(suite: Suite, i: nat)
    requires i < |suite.census|
  {
    suite.inventory.Some? && Covering(suite.inventory.value, suite.census[i].name).None?
  }

  /** The case is due and applies. */
  ghost predicate Fits(suite: Suite, shard: Option<Shard>, i: nat)
    requires i < |suite.census|
  {
    && Due(shard, i) && !Uncovered(suite, i)
    && (suite.inventory.Some? ==>
          Allowed(Covering(suite.inventory.value, suite.census[i].name).value,
                  if suite.missing.Some? then suite.missing.value else []))
  }

  ghost predicate Runs(suite: Suite, shard: Option<Shard>, i: nat)
    requires i < |suite.census|
  {
    Fits(suite, shard, i) && Asked(suite, suite.census[i].name)
  }

  /** The case that is run: that of the census, or one of its name from the new enumeration. */
  ghost predicate IsRun(suite: Suite, i: nat, c: Case)
    requires i < |suite.census| && Enumerated(suite)
  {
    if suite.reruns.None? then c == suite.census[i]
    else c in suite.reruns.value[i] && c.name == suite.census[i].name
  }

  /** The row tells what became of the case that was run: it passed if it returned, it was skipped if
    * it said so, and anything else is a failure; details come from the case where it gave them. */
  ghost predicate Tells(row: Row, c: Case) {
    && row.name == c.name && row.diagnostics == c.diagnostics
    && (row.status == Pass <==> c.outcome == Returned)
    && (row.status == Skip <==> c.outcome.Skipped?)
    && (row.status == Fail <==> c.outcome != Returned && !c.outcome.Skipped?)
    && (row.provenance == ByReturn <==> c.outcome == Returned || c.outcome.Skipped? || c.outcome.Failed?)
    && (row.provenance == ByTimeout <==> c.outcome == TimedOut)
    && (row.provenance == ByTrap <==> c.outcome.Trapped? || c.outcome.BadPayload?)
    && row.complete == Some(row.provenance == ByReturn)
    && (forall d :: c.outcome == Failed(d) || c.outcome == Skipped(d) ==> row.detail == Some(d))
    && (row.detail.None? <==> c.outcome == Returned)
  }

  /** The row of the i-th case: not applicable, deselected, or what became of it. */
  ghost predicate Reports(suite: Suite, shard: Option<Shard>, i: nat, row: Row)
    requires i < |suite.census| && Enumerated(suite)
  {
    && row.name == suite.census[i].name && Due(shard, i) && !Uncovered(suite, i)
    && (row.status == NotApplicable <==> !Fits(suite, shard, i))
    && (row.status == Deselected <==> Fits(suite, shard, i) && !Asked(suite, suite.census[i].name))
    && (row.status == NotApplicable ==>
          row.complete == Some(true) && row.detail.Some? && suite.inventory.Some?
          && FirstBad(row.detail.value, Covering(suite.inventory.value, suite.census[i].name).value,
                      if suite.missing.Some? then suite.missing.value else []))
    && (row.status == Deselected ==> row.complete.None? && row.detail == Some("only " + suite.only))
    && (Runs(suite, shard, i) ==> exists c :: IsRun(suite, i, c) && Tells(row, c))
  }

  /** The first mark that does not allow the case. */
  ghost predicate FirstBad(mark: string, marks: seq<string>, missing: seq<string>) {
    exists k :: 0 <= k < |marks| && marks[k] == mark && !Allowed([mark], missing) && Allowed(marks[..k], missing)
  }

  lemma FirstBadFound(marks: seq<string>, missing: seq<string>)
    requires !Applies(marks, missing)
    ensures FirstBad(FirstExcluding(marks, missing), marks, missing)
  {
    hide Allowed;
    ExcludingMarkFound(marks, missing);
    var k :| 0 <= k < |marks| && Excludes(marks, k, missing) && FirstExcluding(marks, missing) == marks[k];
    AllowedIff(marks[..k], missing);
    AllowedIff([marks[k]], missing);
    assert marks[k] in [marks[k]];
  }

  lemma AskedIff(suite: Suite, name: string)
    ensures IsSelected(suite, name) <==> Asked(suite, name)
  {
    var part := suite.only;
    if Contains(name, part) {
      var i :| 0 <= i <= |name| && StartsWith(name[i..], part);
      assert name == name[..i] + part + name[i..][|part|..];
    }
    if a: string, b: string :| name == a + part + b {
      assert name[|a|..] == part + b && (part + b)[..|part|] == part;
      assert StartsWith(name[|a|..], part);
    }
  }

  lemma DueIff(shard: Option<Shard>, i: nat)
    ensures InStripe(i, shard) <==> Due(shard, i)
  {}

  /** Why reaching the i-th case ends the run, if it does. */
  ghost predicate Ends(suite: Suite, i: nat, e: RunError)
    requires i < |suite.census| && Enumerated(suite)
  {
    if Uncovered(suite, i) then e == Drift(suite.census[i].name)
    else
      && Runs(suite, None, i) && suite.reruns.Some? && e == Vanished(suite.census[i].name)
      && forall c :: c in suite.reruns.value[i] ==> c.name != suite.census[i].name
  }

  lemma AllowedIff(marks: seq<string>, missing: seq<string>)
    ensures Applies(marks, missing) <==> Allowed(marks, missing)
  {
    AppliesIff(marks, missing);
  }

  lemma NoMarks(missing: seq<string>)
    ensures Applies([], missing)
  {}

  /** Where a case is not run, its row says why. */
  lemma GatedRow(suite: Suite, shard: Option<Shard>, i: nat)
    requires i < |suite.census| && Enumerated(suite) && Due(shard, i)
    ensures Uncovered(suite, i) ==> RowOf(suite, i) == Err(Drift(suite.census[i].name))
    ensures !Uncovered(suite, i) && !Runs(suite, shard, i) ==>
      RowOf(suite, i).Ok? && Reports(suite, shard, i, RowOf(suite, i).value)
    ensures Runs(suite, shard, i) ==>
      RowOf(suite, i) ==
      if suite.reruns.None? then Ok(OutcomeRow(suite.census[i]))
      else match Found(suite.reruns.value[i], suite.census[i].name, i)
        case Some(c) => Ok(OutcomeRow(c))
        case None => Err(Vanished(suite.census[i].name))
  {
    hide Covering, Applies, Allowed, IsSelected, Asked, Found, StripeOf, OutcomeRow, Tells, IsRun, FirstBad;
    var name := suite.census[i].name;
    AskedIff(suite, name);
    NoMarks(MissingOf(suite));
    if suite.inventory.Some? && !Uncovered(suite, i) {
      AllowedIff(Covering(suite.inventory.value, name).value, MissingOf(suite));
      if !Applies(Covering(suite.inventory.value, name).value, MissingOf(suite)) {
        FirstBadFound(Covering(suite.inventory.value, name).value, MissingOf(suite));
      }
    }
  }

  lemma RunRow(suite: Suite, shard: Option<Shard>, i: nat, c: Case)
    requires i < |suite.census| && Enumerated(suite) && Runs(suite, shard, i) && IsRun(suite, i, c)
    ensures Reports(suite, shard, i, OutcomeRow(c))
  {
    hide OutcomeRow, Tells, Asked, Allowed, Covering;
    RowTells(c);
  }

  lemma VerdictTells(suite: Suite, shard: Option<Shard>, i: nat)
    requires i < |suite.census| && Enumerated(suite) && Due(shard, i)
    ensures
      match VerdictOf(suite, i)
      case Ok(v) =>
        && Reports(suite, shard, i, v.row) && (v.selected <==> Asked(suite, suite.census[i].name))
        && forall e :: !Ends(suite, i, e)
      case Err(e) => Ends(suite, i, e)
  {
    hide Covering, Allowed, IsSelected, Asked, Found, RowOf, OutcomeRow, Reports, StripeOf;
    var name := suite.census[i].name;
    AskedIff(suite, name);
    GatedRow(suite, shard, i);
    if Runs(suite, shard, i) {
      if suite.reruns.None? {
        RunRow(suite, shard, i, suite.census[i]);
      } else {
        FoundTells(suite.reruns.value[i], name, i);
        var found := Found(suite.reruns.value[i], name, i);
        if found.Some? { RunRow(suite, shard, i, found.value); }
      }
    }
  }

  lemma RowTells(c: Case)
    ensures Tells(OutcomeRow(c), c) && OutcomeRow(c).status != NotApplicable && OutcomeRow(c).status != Deselected
    ensures OutcomeRow(c).name == c.name
  {}

  lemma FoundTells(list: seq<Case>, name: string, hint: nat)
    ensures
      match Found(list, name, hint)
      case Some(c) => c in list && c.name == name
      case None => forall c :: c in list ==> c.name != name
  {}

  /** The rows of a run are those of its due cases. */
  lemma {:induction false} RanTells(suite: Suite, shard: Option<Shard>, n: nat)
    requires n <= |suite.census| && Enumerated(suite)
    ensures
      var p := Ran(Verdicts(suite), shard, n);
      && (forall x :: x in p.lines ==> x.RowLine? && x.index < n && Reports(suite, shard, x.index, x.row))
      && (p.error.None? ==>
            && (forall i :: 0 <= i < n && Due(shard, i) ==> exists x :: x in p.lines && x.RowLine? && x.index == i)
            && forall i, e :: 0 <= i < n && Due(shard, i) ==> !Ends(suite, i, e))
      && (p.error.Some? ==> exists i :: 0 <= i < n && EndsFirst(suite, shard, i, p.error.value))
    decreases n
  {
    hide Due, VerdictOf, Reports, Ends, InStripe, Tally;
    if n > 0 {
      RanTells(suite, shard, n - 1);
      var before, p := Ran(Verdicts(suite), shard, n - 1), Ran(Verdicts(suite), shard, n);
      RanStep(Verdicts(suite), shard, n - 1);
      DueIff(shard, n - 1);
      if before.error.None? && InStripe(n - 1, shard) {
        VerdictTells(suite, shard, n - 1);
        var v := VerdictOf(suite, n - 1);
        if v.Ok? {
          var line := RowLine(v.value.row, n - 1);
          assert p.lines == before.lines + [line] && line in p.lines;
          forall i | 0 <= i < n && Due(shard, i) ensures exists x :: x in p.lines && x.RowLine? && x.index == i {
            if i < n - 1 {
              var x :| x in before.lines && x.RowLine? && x.index == i;
              assert x in p.lines;
            }
          }
        } else {
          assert EndsFirst(suite, shard, n - 1, v.error);
        }
      }
    }
  }

  /** The first case of the stripe that ends the run. */
  ghost predicate EndsFirst(suite: Suite, shard: Option<Shard>, i: nat, e: RunError)
    requires Enumerated(suite)
  {
    && i < |suite.census| && Due(shard, i) && Ends(suite, i, e)
    && forall j, other :: 0 <= j < i && Due(shard, j) ==> !Ends(suite, j, other)
  }

  /** In a run that ends well every line between the envelope and the terminator reports on a due
    * case, and every due case has one. */
  lemma RowsTell(suite: Suite, shard: Option<Shard>, rows: seq<Line>)
    requires Enumerated(suite) && Outcomes(suite, shard).result.Ok?
    requires Outcomes(suite, shard).lines == [Envelope] + rows + [SegmentEnd]
    ensures InOrder(rows)
    ensures forall x :: x in rows ==> x.RowLine? && x.index < |suite.census| && Reports(suite, shard, x.index, x.row)
    ensures forall i :: 0 <= i < |suite.census| && Due(shard, i) ==> exists x :: x in rows && x.RowLine? && x.index == i
  {
    hide Ran, Reports, Due, InOrder;
    var n := |suite.census|;
    RanTells(suite, shard, n);
    RunIsInOrder(Verdicts(suite), shard, n);
    var end := Ran(Verdicts(suite), shard, n);
    assert [Envelope] + rows + [SegmentEnd] == [Envelope] + end.lines + [SegmentEnd];
    assert rows == ([Envelope] + rows + [SegmentEnd])[1..|rows| + 1];
    assert end.lines == ([Envelope] + end.lines + [SegmentEnd])[1..|end.lines| + 1];
  }

  // counting

  ghost function Those(n: nat, p: nat -> bool): set<nat> {
    set i: nat | 0 <= i < n && p(i)
  }

  lemma ThoseStep(n: nat, p: nat -> bool)
    ensures |Those(n + 1, p)| == |Those(n, p)| + if p(n) then 1 else 0
  {
    assert Those(n + 1, p) == Those(n, p) + if p(n) then {n} else {};
  }

  ghost function OfTheCensus(suite: Suite, p: nat -> bool): nat {
    |Those(|suite.census|, p)|
  }

  ghost function Passing(suite: Suite, shard: Option<Shard>): nat -> bool {
    (i: nat) => i < |suite.census| && Runs(suite, shard, i) && suite.census[i].outcome == Returned
  }

  ghost function Skipping(suite: Suite, shard: Option<Shard>): nat -> bool {
    (i: nat) => i < |suite.census| && Runs(suite, shard, i) && suite.census[i].outcome.Skipped?
  }

  predicate IsFailure(o: Outcome) {
    o.Failed? || o.BadPayload? || o.Trapped? || o.TimedOut?
  }

  ghost function Failing(suite: Suite, shard: Option<Shard>): nat -> bool {
    (i: nat) => i < |suite.census| && Runs(suite, shard, i) && IsFailure(suite.census[i].outcome)
  }

  ghost function Inapplicable(suite: Suite, shard: Option<Shard>): nat -> bool {
    (i: nat) => i < |suite.census| && Due(shard, i) && !Fits(suite, shard, i)
  }

  ghost function Unasked(suite: Suite, shard: Option<Shard>): nat -> bool {
    (i: nat) => i < |suite.census| && Fits(suite, shard, i) && !Asked(suite, suite.census[i].name)
  }

  ghost function AskedFor(suite: Suite, shard: Option<Shard>): nat -> bool {
    (i: nat) => i < |suite.census| && Due(shard, i) && Asked(suite, suite.census[i].name)
  }

  ghost function DueOnes(suite: Suite, shard: Option<Shard>): nat -> bool {
    (i: nat) => i < |suite.census| && Due(shard, i)
  }

  /** The counts after n cases are the numbers of cases that the suite describes. */
  ghost predicate CountsDescribe(suite: Suite, shard: Option<Shard>, c: Counts, n: nat) {
    && c.passed == |Those(n, Passing(suite, shard))|
    && c.skipped == |Those(n, Skipping(suite, shard))|
    && c.failed == |Those(n, Failing(suite, shard))|
    && c.na == |Those(n, Inapplicable(suite, shard))|
    && c.deselected == |Those(n, Unasked(suite, shard))|
    && c.selected == |Those(n, AskedFor(suite, shard))|
    && c.total == |Those(n, DueOnes(suite, shard))|
  }

  lemma NoneCounted(suite: Suite, shard: Option<Shard>)
    ensures CountsDescribe(suite, shard, ZERO, 0)
  {
    assert forall p: nat -> bool :: Those(0, p) == {};
  }

  /** The descriptions at one case, against its row. */
  lemma FateOf(suite: Suite, shard: Option<Shard>, n: nat, v: Counted)
    requires n < |suite.census| && Enumerated(suite) && suite.reruns.None? && Due(shard, n)
    requires Reports(suite, shard, n, v.row) && (v.selected <==> Asked(suite, suite.census[n].name))
    ensures Passing(suite, shard)(n) <==> v.row.status == Pass
    ensures Skipping(suite, shard)(n) <==> v.row.status == Skip
    ensures Failing(suite, shard)(n) <==> v.row.status == Fail
    ensures Inapplicable(suite, shard)(n) <==> v.row.status == NotApplicable
    ensures Unasked(suite, shard)(n) <==> v.row.status == Deselected
    ensures (AskedFor(suite, shard)(n) <==> v.selected) && DueOnes(suite, shard)(n)
  {
    StatusTells(suite, shard, n, v.row);
    hide Asked, Fits, Due, Reports;
  }

  lemma NotDue(suite: Suite, shard: Option<Shard>, n: nat)
    requires n < |suite.census| && !Due(shard, n)
    ensures !Passing(suite, shard)(n) && !Skipping(suite, shard)(n) && !Failing(suite, shard)(n)
    ensures !Inapplicable(suite, shard)(n) && !Unasked(suite, shard)(n)
    ensures !AskedFor(suite, shard)(n) && !DueOnes(suite, shard)(n)
  {
    hide Asked, Due;
  }

  lemma OneMoreCounted(suite: Suite, shard: Option<Shard>, c: Counts, n: nat)
    requires n < |suite.census| && Enumerated(suite) && suite.reruns.None? && CountsDescribe(suite, shard, c, n)
    requires Due(shard, n) ==> VerdictOf(suite, n).Ok?
    ensures
      CountsDescribe(suite, shard,
        if Due(shard, n) then Tally(c, VerdictOf(suite, n).value.row.status, VerdictOf(suite, n).value.selected) else c, n + 1)
  {
    hide Due, VerdictOf, Reports, Those, Passing, Skipping, Failing, Inapplicable, Unasked, AskedFor, DueOnes;
    ThoseStep(n, Passing(suite, shard));
    ThoseStep(n, Skipping(suite, shard));
    ThoseStep(n, Failing(suite, shard));
    ThoseStep(n, Inapplicable(suite, shard));
    ThoseStep(n, Unasked(suite, shard));
    ThoseStep(n, AskedFor(suite, shard));
    ThoseStep(n, DueOnes(suite, shard));
    if Due(shard, n) {
      VerdictTells(suite, shard, n);
      FateOf(suite, shard, n, VerdictOf(suite, n).value);
    } else {
      NotDue(suite, shard, n);
    }
  }

  /** The status alone, for one instance. */
  lemma StatusTells(suite: Suite, shard: Option<Shard>, i: nat, row: Row)
    requires i < |suite.census| && Enumerated(suite) && suite.reruns.None? && Reports(suite, shard, i, row)
    ensures row.status ==
      if !Fits(suite, shard, i) then NotApplicable
      else if !Asked(suite, suite.census[i].name) then Deselected
      else if suite.census[i].outcome == Returned then Pass
      else if suite.census[i].outcome.Skipped? then Skip
      else Fail
  {
    hide Asked, Fits;
    if Runs(suite, shard, i) {
      var c :| IsRun(suite, i, c) && Tells(row, c);
    }
  }

  lemma {:induction false} RanDescribes(suite: Suite, shard: Option<Shard>, n: nat)
    requires n <= |suite.census| && Enumerated(suite) && suite.reruns.None?
    requires Ran(Verdicts(suite), shard, n).error.None?
    ensures CountsDescribe(suite, shard, Ran(Verdicts(suite), shard, n).counts, n)
    decreases n
  {
    hide Due, VerdictOf, InStripe, Tally, CountsDescribe;
    if n == 0 {
      NoneCounted(suite, shard);
    } else {
      RanStep(Verdicts(suite), shard, n - 1);
      DueIff(shard, n - 1);
      RanDescribes(suite, shard, n - 1);
      OneMoreCounted(suite, shard, Ran(Verdicts(suite), shard, n - 1).counts, n - 1);
    }
  }

  /** In every completed run on one instance each count is the number of cases that the suite
    * describes: of those that are due, apply and are asked for, the ones that returned passed, the
    * ones that said so were skipped, and the ones that failed, rejected with something else, trapped
    * or ran out of time failed; the marks decide which do not apply, and the filter which of the
    * others are deselected. */
  lemma CountsTell(suite: Suite, shard: Option<Shard>)
    requires Enumerated(suite) && suite.reruns.None? && Outcomes(suite, shard).result.Ok?
    ensures
      var c := Outcomes(suite, shard).result.value;
      && c.passed == OfTheCensus(suite, Passing(suite, shard))
      && c.skipped == OfTheCensus(suite, Skipping(suite, shard))
      && c.failed == OfTheCensus(suite, Failing(suite, shard))
      && c.na == OfTheCensus(suite, Inapplicable(suite, shard))
      && c.deselected == OfTheCensus(suite, Unasked(suite, shard))
      && c.selected == OfTheCensus(suite, AskedFor(suite, shard))
      && c.total == OfTheCensus(suite, DueOnes(suite, shard))
  {
    hide Ran, Those, Passing, Skipping, Failing, Inapplicable, Unasked, AskedFor, DueOnes;
    RanDescribes(suite, shard, |suite.census|);
  }

  /** The options contradict each other or the suite. */
  ghost predicate Refused(suite: Suite, shard: Option<Shard>) {
    || (shard.Some? && !(0 <= shard.value.index < shard.value.count))
    || (suite.inventory.None? && suite.missing.Some?)
  }

  /** Why a run fails: bad options, an empty census, the first due case that no record covers or that
    * is gone from its new enumeration, or, for a whole suite, a filter that no case matches. */
  lemma RunFails(suite: Suite, shard: Option<Shard>)
    requires Enumerated(suite)
    ensures
      var f := Outcomes(suite, shard);
      && (f.result == Err(BadShard) <==> shard.Some? && !(0 <= shard.value.index < shard.value.count))
      && (f.lines == [] <==> Refused(suite, shard))
      && (f.result == Err(MissingWithoutInventory) <==> Refused(suite, shard) && f.result != Err(BadShard))
      && (f.result == Err(NoCases) <==> !Refused(suite, shard) && suite.census == [])
      && (f.result.Err? && (f.result.error.Drift? || f.result.error.Vanished?) <==>
            !Refused(suite, shard) && exists i, e :: 0 <= i < |suite.census| && Due(shard, i) && Ends(suite, i, e))
      && (f.result.Err? && (f.result.error.Drift? || f.result.error.Vanished?) ==>
            exists i :: 0 <= i < |suite.census| && EndsFirst(suite, shard, i, f.result.error))
      && (f.result == Err(EmptySelection) ==>
            suite.only != "" && shard.None? && forall i :: 0 <= i < |suite.census| ==> !Asked(suite, suite.census[i].name))
      && (f.result.Ok? && shard.None? ==> exists i :: 0 <= i < |suite.census| && Asked(suite, suite.census[i].name))
  {
    hide Ran, Due, Ends, Asked, Reports;
    var n := |suite.census|;
    var end := Ran(Verdicts(suite), shard, n);
    RanTells(suite, shard, n);
    if end.error.Some? {
      var i :| 0 <= i < n && EndsFirst(suite, shard, i, end.error.value);
      EndsIsTrouble(suite, i, end.error.value);
    } else {
      SelectedIff(suite, shard, n);
      if suite.census != [] { NoFilter(suite, suite.census[0].name); }
    }
    if shard.None? { AllDue(n); }
  }

  lemma AllDue(n: nat)
    ensures forall i :: 0 <= i < n ==> Due(None, i)
  {}

  lemma NoFilter(suite: Suite, name: string)
    ensures suite.only == "" ==> Asked(suite, name)
  {}

  lemma EndsIsTrouble(suite: Suite, i: nat, e: RunError)
    requires i < |suite.census| && Enumerated(suite) && Ends(suite, i, e)
    ensures e.Drift? || e.Vanished?
  {}

  lemma {:induction false} SelectedIff(suite: Suite, shard: Option<Shard>, n: nat)
    requires n <= |suite.census| && Enumerated(suite) && Ran(Verdicts(suite), shard, n).error.None?
    ensures Ran(Verdicts(suite), shard, n).counts.selected > 0 <==>
      exists i :: 0 <= i < n && Due(shard, i) && Asked(suite, suite.census[i].name)
    decreases n
  {
    hide Due, VerdictOf, InStripe, Asked, Reports, Ends;
    if n > 0 {
      RanStep(Verdicts(suite), shard, n - 1);
      DueIff(shard, n - 1);
      SelectedIff(suite, shard, n - 1);
      if Due(shard, n - 1) { VerdictTells(suite, shard, n - 1); }
    }
  }

  // ---- shards ----------------------------------------------------------------------------------

  function Sum(a: Counts, b: Counts): Counts {
    Counts(a.passed + b.passed, a.failed + b.failed, a.skipped + b.skipped, a.na + b.na,
           a.deselected + b.deselected, a.selected + b.selected, a.total + b.total)
  }

  function ShardOf(k: nat, count: nat): Option<Shard> {
    Some(Shard(k, count))
  }

  /** The counts of the first k of count shards, after n cases, added up. */
  function SumOfShards(verdicts: seq<Verdict>, count: nat, k: nat, n: nat): Counts
    requires n <= |verdicts|
  {
    if k == 0 then ZERO
    else Sum(SumOfShards(verdicts, count, k - 1, n), Ran(verdicts, ShardOf(k - 1, count), n).counts)
  }

  /** The rows of the first k of count shards, after n cases, in no particular order. */
  function RowsOfShards(verdicts: seq<Verdict>, count: nat, k: nat, n: nat): multiset<Line>
    requires n <= |verdicts|
  {
    if k == 0 then multiset{}
    else RowsOfShards(verdicts, count, k - 1, n) + multiset(Ran(verdicts, ShardOf(k - 1, count), n).lines)
  }

  /** No case of the first n throws. */
  ghost predicate Sound(verdicts: seq<Verdict>, n: nat) {
    n <= |verdicts| && forall i :: 0 <= i < n ==> verdicts[i].Ok?
  }

  lemma {:induction false} EndsWellIff(verdicts: seq<Verdict>, shard: Option<Shard>, n: nat)
    requires n <= |verdicts|
    ensures Ran(verdicts, shard, n).error.None? <==> forall i :: 0 <= i < n && InStripe(i, shard) ==> verdicts[i].Ok?
  {
    hide InStripe, Tally;
    if n > 0 { EndsWellIff(verdicts, shard, n - 1); }
  }

  lemma SoundStep(verdicts: seq<Verdict>, shard: Option<Shard>, n: nat)
    requires n < |verdicts| && Sound(verdicts, n + 1)
    ensures var before, after, v := Ran(verdicts, shard, n), Ran(verdicts, shard, n + 1), verdicts[n].value;
      && after.lines == before.lines + (if InStripe(n, shard) then [RowLine(v.row, n)] else [])
      && after.counts == if InStripe(n, shard) then Tally(before.counts, v.row.status, v.selected) else before.counts
  {
    hide Ran, InStripe, Tally;
    EndsWellIff(verdicts, shard, n);
    RanStep(verdicts, shard, n);
  }

  lemma SumTally(a: Counts, b: Counts, status: Status, selected: bool)
    ensures Sum(a, Tally(b, status, selected)) == Tally(Sum(a, b), status, selected)
    ensures Sum(Tally(a, status, selected), b) == Tally(Sum(a, b), status, selected)
  {}

  /** The rows that the n-th case adds to the first k shards: its own if its shard is among them. */
  function RowIfBelow(v: Counted, n: nat, count: nat, k: nat): multiset<Line> {
    if count >= 1 && StripeOf(n, count) < k then multiset{RowLine(v.row, n)} else multiset{}
  }

  function TallyIfBelow(c: Counts, v: Counted, n: nat, count: nat, k: nat): Counts {
    if count >= 1 && StripeOf(n, count) < k then Tally(c, v.row.status, v.selected) else c
  }

  lemma {:induction false} RowsStep(verdicts: seq<Verdict>, count: nat, k: nat, n: nat)
    requires n < |verdicts| && Sound(verdicts, n + 1) && count >= 1
    ensures RowsOfShards(verdicts, count, k, n + 1)
         == RowsOfShards(verdicts, count, k, n) + RowIfBelow(verdicts[n].value, n, count, k)
    decreases k
  {
    hide Ran, StripeOf, Tally;
    if k > 0 {
      RowsStep(verdicts, count, k - 1, n);
      SoundStep(verdicts, ShardOf(k - 1, count), n);
    }
  }

  lemma {:induction false} SumStep(verdicts: seq<Verdict>, count: nat, k: nat, n: nat)
    requires n < |verdicts| && Sound(verdicts, n + 1) && count >= 1
    ensures SumOfShards(verdicts, count, k, n + 1)
         == TallyIfBelow(SumOfShards(verdicts, count, k, n), verdicts[n].value, n, count, k)
    decreases k
  {
    hide Ran, StripeOf, Tally, Sum;
    if k > 0 {
      SumStep(verdicts, count, k - 1, n);
      SoundStep(verdicts, ShardOf(k - 1, count), n);
      var v := verdicts[n].value;
      SumTally(SumOfShards(verdicts, count, k - 1, n), Ran(verdicts, ShardOf(k - 1, count), n).counts,
               v.row.status, v.selected);
    }
  }

  ghost predicate Covered(verdicts: seq<Verdict>, count: nat, n: nat) {
    && n <= |verdicts|
    && RowsOfShards(verdicts, count, count, n) == multiset(Ran(verdicts, None, n).lines)
    && SumOfShards(verdicts, count, count, n) == Ran(verdicts, None, n).counts
  }

  lemma {:induction false} NothingYet(verdicts: seq<Verdict>, count: nat, k: nat)
    ensures RowsOfShards(verdicts, count, k, 0) == multiset{} && SumOfShards(verdicts, count, k, 0) == ZERO
    decreases k
  {
    if k > 0 { NothingYet(verdicts, count, k - 1); }
  }

  lemma CoverStep(verdicts: seq<Verdict>, count: nat, n: nat)
    requires count >= 1 && n < |verdicts| && Sound(verdicts, n + 1) && Covered(verdicts, count, n)
    ensures Covered(verdicts, count, n + 1)
  {
    hide Ran, RowsOfShards, SumOfShards, Tally, StripeOf, Sound;
    RowsStep(verdicts, count, count, n);
    SumStep(verdicts, count, count, n);
    SoundStep(verdicts, None, n);
  }

  /** All shards together have the rows and the counts of the unsharded run. */
  lemma {:induction false} ShardsCoverRun(verdicts: seq<Verdict>, count: nat, n: nat)
    requires count >= 1 && Sound(verdicts, n)
    ensures Covered(verdicts, count, n)
  {
    hide RowsOfShards, SumOfShards;
    if n == 0 {
      NothingYet(verdicts, count, count);
    } else {
      ShardsCoverRun(verdicts, count, n - 1);
      CoverStep(verdicts, count, n - 1);
    }
  }

  // suite order

  /** Rows in suite order, each case at most once. */
  ghost predicate InOrder(lines: seq<Line>) {
    lines != [] ==> lines[0].RowLine? && AllAfter(lines[0].index, lines[1..]) && InOrder(lines[1..])
  }

  ghost predicate AllAfter(index: nat, lines: seq<Line>) {
    forall x :: x in lines ==> x.RowLine? && index < x.index
  }

  lemma {:induction false} InOrderMore(lines: seq<Line>, row: Row, n: nat)
    requires InOrder(lines) && forall x :: x in lines ==> x.RowLine? && x.index < n
    ensures InOrder(lines + [RowLine(row, n)])
  {
    if lines == [] {
      assert lines + [RowLine(row, n)] == [RowLine(row, n)];
    } else {
      InOrderMore(lines[1..], row, n);
      assert (lines + [RowLine(row, n)])[1..] == lines[1..] + [RowLine(row, n)];
    }
  }

  lemma {:induction false} RunIsInOrder(verdicts: seq<Verdict>, shard: Option<Shard>, n: nat)
    requires n <= |verdicts|
    ensures InOrder(Ran(verdicts, shard, n).lines)
    ensures forall x :: x in Ran(verdicts, shard, n).lines ==> x.RowLine? && x.index < n
  {
    hide InOrder, InStripe, Tally;
    if n == 0 {
      EmptyInOrder();
    } else {
      RunIsInOrder(verdicts, shard, n - 1);
      var v := verdicts[n - 1];
      if v.Ok? { InOrderMore(Ran(verdicts, shard, n - 1).lines, v.value.row, n - 1); }
    }
  }

  lemma EmptyInOrder()
    ensures InOrder([])
  {}

  lemma FirstsAgree(a: seq<Line>, b: seq<Line>)
    requires InOrder(a) && InOrder(b) && multiset(a) == multiset(b) && a != [] && b != []
    ensures a[0] == b[0]
  {
    assert a[0] in multiset(b) && b[0] in multiset(a);
    assert a[0] in b && b[0] in a;
    assert a == [a[0]] + a[1..] && b == [b[0]] + b[1..];
  }

  lemma TailsAgree(a: seq<Line>, b: seq<Line>)
    requires multiset(a) == multiset(b) && a != [] && b != [] && a[0] == b[0]
    ensures multiset(a[1..]) == multiset(b[1..])
  {
    assert a == [a[0]] + a[1..] && b == [b[0]] + b[1..];
    assert multiset(a[1..]) == multiset(a) - multiset{a[0]};
    assert multiset(b[1..]) == multiset(b) - multiset{b[0]};
  }

  /** Rows can be put into suite order in one way only. */
  lemma {:induction false} OrderIsUnique(a: seq<Line>, b: seq<Line>)
    requires InOrder(a) && InOrder(b) && multiset(a) == multiset(b)
    ensures a == b
  {
    assert |a| == |multiset(a)| == |multiset(b)| == |b|;
    if a != [] {
      FirstsAgree(a, b);
      TailsAgree(a, b);
      OrderIsUnique(a[1..], b[1..]);
      assert a == [a[0]] + a[1..] && b == [b[0]] + b[1..];
    }
  }

  // partition identity

  lemma UnshardedIsSound(suite: Suite)
    requires Enumerated(suite) && Outcomes(suite, None).result.Ok?
    ensures Sound(Verdicts(suite), |suite.census|)
  {
    var n, verdicts := |suite.census|, Verdicts(suite);
    EndsWellIff(verdicts, None, n);
    forall i | 0 <= i < n ensures verdicts[i].Ok? { assert InStripe(i, None); }
  }

  lemma SoundShardEndsWell(suite: Suite, shard: Shard)
    requires Enumerated(suite) && Sound(Verdicts(suite), |suite.census|) && ShardValid(Some(shard))
    requires suite.census != [] && (suite.inventory.Some? || suite.missing.None?)
    ensures Outcomes(suite, Some(shard)).result == Ok(Ran(Verdicts(suite), Some(shard), |suite.census|).counts)
  {
    EndsWellIff(Verdicts(suite), Some(shard), |suite.census|);
  }

  /** If the unsharded run ends well, so does every shard, their counts add up to its counts, and
    * their rows put into suite order are its rows. */
  lemma PartitionIdentity(suite: Suite, count: nat, merged: seq<Line>)
    requires Enumerated(suite) && count >= 1 && Outcomes(suite, None).result.Ok?
    requires InOrder(merged) && multiset(merged) == RowsOfShards(Verdicts(suite), count, count, |suite.census|)
    ensures forall k: nat :: k < count ==> Outcomes(suite, ShardOf(k, count)).result.Ok?
    ensures SumOfShards(Verdicts(suite), count, count, |suite.census|) == Outcomes(suite, None).result.value
    ensures [Envelope] + merged + [SegmentEnd] == Outcomes(suite, None).lines
  {
    hide Ran, Verdicts, RowsOfShards, SumOfShards, InOrder, Sound, InStripe, StripeOf;
    UnshardedIsSound(suite);
    ShardsCoverRun(Verdicts(suite), count, |suite.census|);
    RunIsInOrder(Verdicts(suite), None, |suite.census|);
    OrderIsUnique(merged, Ran(Verdicts(suite), None, |suite.census|).lines);
    forall k: nat | k < count ensures Outcomes(suite, ShardOf(k, count)).result.Ok? {
      SoundShardEndsWell(suite, Shard(k, count));
    }
  }

  lemma ShardsAreSound(suite: Suite, count: nat)
    requires Enumerated(suite) && count >= 1
    requires forall k: nat :: k < count ==> Outcomes(suite, ShardOf(k, count)).result.Ok?
    ensures Sound(Verdicts(suite), |suite.census|)
  {
    hide Ran, StripeOf;
    var n, verdicts := |suite.census|, Verdicts(suite);
    forall i | 0 <= i < n ensures verdicts[i].Ok? {
      var k := StripeOf(i, count);
      assert Outcomes(suite, ShardOf(k, count)).result.Ok?;
      EndsWellIff(verdicts, ShardOf(k, count), n);
      assert InStripe(i, ShardOf(k, count));
    }
  }

  /** The reverse: when every shard ends well, the unsharded run fails only by selecting nothing, a
    * case that the shards leave to whoever adds up their counts. */
  lemma ShardsEndWell(suite: Suite, count: nat)
    requires Enumerated(suite) && count >= 1
    requires forall k: nat :: k < count ==> Outcomes(suite, ShardOf(k, count)).result.Ok?
    ensures Outcomes(suite, None).result.Ok? <==>
      suite.only == "" || SumOfShards(Verdicts(suite), count, count, |suite.census|).selected > 0
  {
    hide Ran, Verdicts, RowsOfShards, SumOfShards, Sound, InStripe, StripeOf;
    ShardsAreSound(suite, count);
    EndsWellIff(Verdicts(suite), None, |suite.census|);
    SoundAll(Verdicts(suite), |suite.census|);
    ShardsCoverRun(Verdicts(suite), count, |suite.census|);
    assert Outcomes(suite, ShardOf(0, count)).result.Ok?;
  }

  lemma SoundAll(verdicts: seq<Verdict>, n: nat)
    requires Sound(verdicts, n)
    ensures forall i :: 0 <= i < n && InStripe(i, None) ==> verdicts[i].Ok?
  {}

  // ---- re-enumeration --------------------------------------------------------------------------

  ghost predicate SameCases(a: seq<Case>, b: seq<Case>) {
    forall c: Case :: c in a <==> c in b
  }

  /** Every re-enumeration lists the cases of the census, in whatever order. */
  ghost predicate Steady(suite: Suite) {
    && DistinctNames(suite.census)
    && suite.reruns.Some? && Enumerated(suite)
    && forall i :: 0 <= i < |suite.reruns.value| ==> SameCases(suite.reruns.value[i], suite.census)
  }

  lemma FoundAgain(list: seq<Case>, census: seq<Case>, i: nat)
    requires DistinctNames(census) && SameCases(list, census) && i < |census|
    ensures Found(list, census[i].name, i) == Some(census[i])
  {
    assert census[i] in list;
    var found := Found(list, census[i].name, i);
    assert found.Some? && found.value in census;
    var j :| 0 <= j < |census| && census[j] == found.value;
  }

  /** Running each case on a fresh instance gives what one instance would, in whatever order the
    * instances list their cases. */
  lemma RerunsChangeNothing(suite: Suite, shard: Option<Shard>)
    requires Steady(suite)
    ensures Outcomes(suite, shard) == Outcomes(suite.(reruns := None), shard)
  {
    hide Ran, Found, ShardValid;
    var once := suite.(reruns := None);
    forall i | 0 <= i < |suite.census| ensures VerdictOf(suite, i) == VerdictOf(once, i) {
      FoundAgain(suite.reruns.value[i], suite.census, i);
    }
    assert Verdicts(suite) == Verdicts(once);
  }
}
