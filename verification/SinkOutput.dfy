/** wasi/src/io.ts, SinkOutputStream: a byte stream with a budget over an asynchronous sink.
  *
  * Every write appends one job to a chain of promises (`#tail`); a job may start only once the
  * promise it was chained on has settled.  As in FedInput the code between two awaits is one
  * method, a wake promise is an epoch, and `Run` interleaves everything in every order.
  */
module SinkOutput {
  import opened Prelude
  import opened StreamTypes

  /** How a job ended: the sink took the chunk, it threw, or it was not called after a failure. */
  datatype Outcome = Stored | Lost(e: Thrown) | Skipped

  datatype Phase = Waiting | Calling | Settled(outcome: Outcome)

  /** One `.then` callback of the pump.  `after` is the promise it was chained on: 0 for the
    * resolved promise of the constructor, k for the promise of job k-1. */
  datatype Job = Job(contents: Chunk, after: nat, phase: Phase)

  datatype Core = Core(
    highWater: int, queued: int, closed: bool, failure: Thrown,
    jobs: seq<Job>, tail: nat, wakeEpoch: nat)

  datatype WriteResult = Written | Refused(error: StreamError) | Trapped

  datatype FlushAttempt = Flushed | FlushFailed(error: StreamError) | ParkOn(epoch: nat)

  // ---- the transitions ---------------------------------------------------------------------

  function Signalled(c: Core): Core {
    c.(wakeEpoch := c.wakeEpoch + 1)
  }

  function CheckOpen(c: Core): Option<StreamError> {
    if c.closed then Some(Closed)
    else if c.failure != Undefined then Some(LastOperationFailed(DebugString(c.failure)))
    else None
  }

  function Permit(c: Core): Result<int, StreamError> {
    match CheckOpen(c)
    case Some(error) => Err(error)
    case None => Ok(if c.highWater - c.queued > 0 then c.highWater - c.queued else 0)
  }

  function WriteStep(c: Core, contents: Chunk): (Core, WriteResult) {
    match CheckOpen(c)
    case Some(error) => (c, Refused(error))
    case None =>
      if |contents| > c.highWater - c.queued then (c, Trapped)
      else
        (c.(queued := c.queued + |contents|,
            jobs := c.jobs + [Job(contents, c.tail, Waiting)],
            tail := |c.jobs| + 1), Written)
  }

  /** The `finally` block of a job. */
  function Discharged(c: Core, j: nat, outcome: Outcome): Core
    requires j < |c.jobs|
  {
    Signalled(c.(queued := c.queued - |c.jobs[j].contents|,
                 jobs := c.jobs[j := c.jobs[j].(phase := Settled(outcome))]))
  }

  /** A job from its start to its await of the sink, or to its end when a failure is latched. */
  function StartStep(c: Core, j: nat): Core
    requires j < |c.jobs|
  {
    if c.failure == Undefined then c.(jobs := c.jobs[j := c.jobs[j].(phase := Calling)])
    else Discharged(c, j, Skipped)
  }

  function ReturnStep(c: Core, j: nat): Core
    requires j < |c.jobs|
  {
    Discharged(c, j, Stored)
  }

  function ThrowStep(c: Core, j: nat, e: Thrown): Core
    requires j < |c.jobs|
  {
    Discharged(c.(failure := e), j, Lost(e))
  }

  function FlushStart(c: Core): FlushAttempt {
    match CheckOpen(c)
    case Some(error) => FlushFailed(error)
    case None => if c.queued == 0 then Flushed else FlushResume(c)
  }

  /** The loop of `blockingFlush` and the check after it. */
  function FlushResume(c: Core): FlushAttempt {
    if c.queued > 0 && c.failure == Undefined then ParkOn(c.wakeEpoch)
    else match CheckOpen(c) case Some(error) => FlushFailed(error) case None => Flushed
  }

  predicate Writable(c: Core) {
    c.closed || c.failure != Undefined || c.queued < c.highWater
  }

  function DisposeStep(c: Core): Core {
    Signalled(c.(closed := true))
  }

  // ---- the class ---------------------------------------------------------------------------

  class SinkOutputStream {
    const highWater: int
    var queued: int
    var closed: bool
    var failure: Thrown
    var jobs: seq<Job>
    var tail: nat
    var wakeEpoch: nat

    ghost function Fields(): Core
      reads this
    {
      Core(highWater, queued, closed, failure, jobs, tail, wakeEpoch)
    }

    constructor (highWater: int)
      ensures Fields() == Initial(highWater)
    {
      this.highWater := highWater;
      queued, closed, failure, jobs, tail, wakeEpoch := 0, false, Undefined, [], 0, 0;
    }

    method Signal()
      modifies this`wakeEpoch
      ensures Fields() == Signalled(old(Fields()))
    {
      wakeEpoch := wakeEpoch + 1;
    }

    method Check() returns (error: Option<StreamError>)
      ensures error == CheckOpen(Fields())
    {
      if closed { return Some(Closed); }
      if failure != Undefined { return Some(LastOperationFailed(DebugString(failure))); }
      return None;
    }

    method CheckWrite() returns (r: Result<int, StreamError>)
      ensures r == Permit(Fields())
    {
      var error := Check();
      if error.Some? { return Err(error.value); }
      return Ok(if highWater - queued > 0 then highWater - queued else 0);
    }

    method Write(contents: Chunk) returns (r: WriteResult)
      modifies this
      ensures (Fields(), r) == WriteStep(old(Fields()), contents)
    {
      var error := Check();
      if error.Some? { return Refused(error.value); }
      if |contents| > highWater - queued { return Trapped; }
      queued := queued + |contents|;
      jobs := jobs + [Job(contents, tail, Waiting)];
      tail := |jobs|;
      return Written;
    }

    method JobFinally(j: nat, outcome: Outcome)
      requires j < |jobs|
      modifies this
      ensures Fields() == Discharged(old(Fields()), j, outcome)
    {
      queued := queued - |jobs[j].contents|;
      jobs := jobs[j := jobs[j].(phase := Settled(outcome))];
      Signal();
    }

    method JobStart(j: nat)
      requires j < |jobs|
      modifies this
      ensures Fields() == StartStep(old(Fields()), j)
    {
      if failure == Undefined {
        jobs := jobs[j := jobs[j].(phase := Calling)];
      } else {
        JobFinally(j, Skipped);
      }
    }

    method SinkReturned(j: nat)
      requires j < |jobs|
      modifies this
      ensures Fields() == ReturnStep(old(Fields()), j)
    {
      JobFinally(j, Stored);
    }

    method SinkThrew(j: nat, e: Thrown)
      requires j < |jobs|
      modifies this
      ensures Fields() == ThrowStep(old(Fields()), j, e)
    {
      failure := e;
      JobFinally(j, Lost(e));
    }

    method BlockingFlush() returns (a: FlushAttempt)
      ensures a == FlushStart(Fields())
    {
      var error := Check();
      if error.Some? { return FlushFailed(error.value); }
      if queued == 0 { return Flushed; }
      a := FlushLoop();
    }

    method FlushLoop() returns (a: FlushAttempt)
      ensures a == FlushResume(Fields())
    {
      if queued > 0 && failure == Undefined { return ParkOn(wakeEpoch); }
      var error := Check();
      if error.Some? { return FlushFailed(error.value); }
      return Flushed;
    }

    method Dispose()
      modifies this
      ensures Fields() == DisposeStep(old(Fields()))
    {
      closed := true;
      Signal();
    }
  }

  // ---- whole runs --------------------------------------------------------------------------

  /** The stream, its parked waiters, and the history: how many jobs have settled, the chunks the
    * sink was called with, and those it stored or lost by throwing `undefined`. */
  datatype State = State(
    core: Core, flushers: map<nat, nat>, blockers: map<nat, nat>,
    done: nat, calls: seq<Chunk>, stored: seq<Chunk>, dropped: seq<Chunk>)

  datatype Event =
    | Write(contents: Chunk) | JobStarts(j: nat) | SinkReturns(j: nat) | SinkThrows(j: nat, e: Thrown)
    | Flush(id: nat) | FlusherWakes(id: nat) | Block(id: nat) | BlockerWakes(id: nat) | Dispose

  function Initial(highWater: int): Core {
    Core(highWater, 0, false, Undefined, [], 0, 0)
  }

  function Start(highWater: int): State {
    State(Initial(highWater), map[], map[], 0, [], [], [])
  }

  predicate PromiseSettled(c: Core, p: nat) {
    p == 0 || (p <= |c.jobs| && c.jobs[p - 1].phase.Settled?)
  }

  predicate Enabled(s: State, e: Event) {
    match e
    case JobStarts(j) => j < |s.core.jobs| && s.core.jobs[j].phase == Waiting && PromiseSettled(s.core, s.core.jobs[j].after)
    case SinkReturns(j) => j < |s.core.jobs| && s.core.jobs[j].phase == Calling
    case SinkThrows(j, _) => j < |s.core.jobs| && s.core.jobs[j].phase == Calling
    case Flush(id) => id !in s.flushers
    case FlusherWakes(id) => id in s.flushers && s.flushers[id] < s.core.wakeEpoch
    case Block(id) => id !in s.blockers
    case BlockerWakes(id) => id in s.blockers && s.blockers[id] < s.core.wakeEpoch
    case _ => true
  }

  function AfterFlush(s: State, id: nat, a: FlushAttempt): State {
    match a
    case ParkOn(epoch) => s.(flushers := s.flushers[id := epoch])
    case _ => s.(flushers := s.flushers - {id})
  }

  function AfterBlock(s: State, id: nat): State {
    if Writable(s.core) then s.(blockers := s.blockers - {id})
    else s.(blockers := s.blockers[id := s.core.wakeEpoch])
  }

  function Step(s: State, e: Event): State
    requires Enabled(s, e)
  {
    match e
    case Write(contents) => s.(core := WriteStep(s.core, contents).0)
    case JobStarts(j) =>
      if s.core.failure == Undefined
      then s.(core := StartStep(s.core, j), calls := s.calls + [s.core.jobs[j].contents])
      else s.(core := StartStep(s.core, j), done := s.done + 1)
    case SinkReturns(j) =>
      s.(core := ReturnStep(s.core, j), done := s.done + 1, stored := s.stored + [s.core.jobs[j].contents])
    case SinkThrows(j, e) =>
      s.(core := ThrowStep(s.core, j, e), done := s.done + 1,
         dropped := if e == Undefined then s.dropped + [s.core.jobs[j].contents] else s.dropped)
    case Flush(id) => AfterFlush(s, id, FlushStart(s.core))
    case FlusherWakes(id) => AfterFlush(s, id, FlushResume(s.core))
    case Block(id) => AfterBlock(s, id)
    case BlockerWakes(id) => AfterBlock(s, id)
    case Dispose => s.(core := DisposeStep(s.core))
  }

  ghost predicate Next(s: State, e: Event, s': State) {
    Enabled(s, e) && s' == Step(s, e)
  }

  ghost predicate StepAt(events: seq<Event>, states: seq<State>, i: nat)
    requires i < |events| && |states| == |events| + 1
  {
    Next(states[i], events[i], states[i + 1])
  }

  ghost predicate Run(highWater: int, events: seq<Event>, states: seq<State>) {
    && |states| == |events| + 1
    && states[0] == Start(highWater)
    && forall i :: 0 <= i < |events| ==> StepAt(events, states, i)
  }

  /** The chunks accepted by `write`, in order. */
  function Accepted(jobs: seq<Job>): seq<Chunk> {
    if jobs == [] then [] else Accepted(jobs[..|jobs| - 1]) + [jobs[|jobs| - 1].contents]
  }

  lemma {:induction false} AcceptedPrefix(jobs: seq<Job>, n: nat)
    requires n <= |jobs|
    ensures |Accepted(jobs)| == |jobs|
    ensures Accepted(jobs)[..n] == Accepted(jobs[..n])
    ensures forall i :: 0 <= i < |jobs| ==> Accepted(jobs)[i] == jobs[i].contents
  {
    if jobs != [] {
      var front := jobs[..|jobs| - 1];
      AcceptedPrefix(front, if n < |jobs| then n else n - 1);
      if n < |jobs| { assert front[..n] == jobs[..n]; } else { assert jobs[..n] == jobs; }
    }
  }

  /** The pump is serial: settled jobs, then at most one being served, then waiting ones. */
  ghost predicate Serial(s: State) {
    && s.core.tail == |s.core.jobs| && s.done <= |s.core.jobs|
    && forall j :: 0 <= j < |s.core.jobs| ==>
         && s.core.jobs[j].after == j
         && (s.core.jobs[j].phase.Settled? <==> j < s.done)
         && (s.core.jobs[j].phase == Calling ==> j == s.done && s.core.failure == Undefined)
  }

  ghost predicate Budget(s: State) {
    && s.done <= |s.core.jobs|
    && s.core.queued == |Flat(Accepted(s.core.jobs))| - |Flat(Accepted(s.core.jobs[..s.done]))|
    && (s.core.highWater >= 0 ==> s.core.queued <= s.core.highWater)
  }

  predicate InCall(s: State) {
    s.done < |s.core.jobs| && s.core.jobs[s.done].phase == Calling
  }

  /** The sink has seen the first accepted chunks, in order; while no failure is latched it stored
    * all of the settled ones except those it dropped by throwing `undefined`. */
  ghost predicate Calls(s: State) {
    && s.done <= |s.core.jobs|
    && s.calls <= Accepted(s.core.jobs)
    && (s.core.failure == Undefined ==>
          && |s.calls| == s.done + (if InCall(s) then 1 else 0)
          && |Flat(s.stored)| + |Flat(s.dropped)| == |Flat(Accepted(s.core.jobs[..s.done]))|
          && (Flat(s.dropped) == [] ==> Flat(s.stored) == Flat(Accepted(s.core.jobs[..s.done]))))
  }

  ghost predicate Parked(s: State) {
    && (forall id :: id in s.flushers ==> s.flushers[id] <= s.core.wakeEpoch)
    && (forall id :: id in s.flushers && s.flushers[id] == s.core.wakeEpoch ==> s.core.queued > 0 && s.core.failure == Undefined)
    && (forall id :: id in s.blockers ==> s.blockers[id] <= s.core.wakeEpoch)
    && (forall id :: id in s.blockers && s.blockers[id] == s.core.wakeEpoch ==> !Writable(s.core))
  }

  ghost predicate Invariant(s: State) {
    Serial(s) && Budget(s) && Calls(s) && Parked(s)
  }

  lemma StepKeepsSerial(s: State, e: Event, s': State)
    requires Serial(s) && Next(s, e, s')
    ensures Serial(s')
  {
  }

  /** Settling or starting a job leaves the accepted chunks as they were. */
  lemma {:induction false} PhaseIrrelevant(jobs: seq<Job>, j: nat, phase: Phase)
    requires j < |jobs|
    ensures Accepted(jobs[j := jobs[j].(phase := phase)]) == Accepted(jobs)
    ensures forall n :: 0 <= n <= |jobs| ==> Accepted(jobs[j := jobs[j].(phase := phase)][..n]) == Accepted(jobs[..n])
  {
    var jobs' := jobs[j := jobs[j].(phase := phase)];
    forall n | 0 <= n <= |jobs| ensures Accepted(jobs'[..n]) == Accepted(jobs[..n]) {
      AcceptedPrefix(jobs'[..n], 0);
      AcceptedPrefix(jobs[..n], 0);
    }
    assert jobs'[..|jobs|] == jobs' && jobs[..|jobs|] == jobs;
  }

  /** The next settled prefix is the old one and one more chunk. */
  lemma AcceptedOneMore(jobs: seq<Job>, n: nat)
    requires n < |jobs|
    ensures Accepted(jobs[..n + 1]) == Accepted(jobs[..n]) + [jobs[n].contents]
    ensures Flat(Accepted(jobs[..n + 1])) == Flat(Accepted(jobs[..n])) + jobs[n].contents
  {
    assert jobs[..n + 1][..n] == jobs[..n];
    FlatPush(Accepted(jobs[..n]), jobs[n].contents);
  }

  lemma WriteKeepsBudget(s: State, contents: Chunk)
    requires Serial(s) && Budget(s) && Calls(s)
    ensures Budget(Step(s, Write(contents))) && Calls(Step(s, Write(contents)))
  {
    var s' := Step(s, Write(contents));
    if s'.core.jobs != s.core.jobs {
      assert s'.core.jobs[..|s.core.jobs|] == s.core.jobs;
      FlatPush(Accepted(s.core.jobs), contents);
      assert s'.core.jobs[..s.done] == s.core.jobs[..s.done];
    }
  }

  /** What the settling of the job being served changes in the books. */
  lemma SettlingMovesOneChunk(s: State, e: Event, s': State)
    requires Serial(s) && Next(s, e, s') && s'.done == s.done + 1
    ensures e.JobStarts? || e.SinkReturns? || e.SinkThrows?
    ensures e.j == s.done < |s.core.jobs| && |s'.core.jobs| == |s.core.jobs|
    ensures s'.core.queued == s.core.queued - |s.core.jobs[e.j].contents|
    ensures Accepted(s'.core.jobs) == Accepted(s.core.jobs)
    ensures Flat(Accepted(s'.core.jobs[..s'.done])) == Flat(Accepted(s.core.jobs[..s.done])) + s.core.jobs[e.j].contents
  {
    hide Flat, Accepted;
    PhaseIrrelevant(s.core.jobs, e.j, s'.core.jobs[e.j].phase);
    AcceptedOneMore(s.core.jobs, e.j);
  }

  lemma SettlingKeepsCalls(s: State, e: Event, s': State)
    requires Serial(s) && Budget(s) && Calls(s) && Next(s, e, s') && s'.done == s.done + 1
    ensures Budget(s') && Calls(s')
  {
    SettlingMovesOneChunk(s, e, s');
    if e.SinkReturns? {
      FlatPush(s.stored, s.core.jobs[e.j].contents);
    } else if e.SinkThrows? {
      FlatPush(s.dropped, s.core.jobs[e.j].contents);
    }
  }

  lemma StartKeepsCalls(s: State, j: nat, s': State)
    requires Serial(s) && Budget(s) && Calls(s) && Next(s, JobStarts(j), s') && s'.done == s.done
    ensures Budget(s') && Calls(s')
  {
    hide Flat, Accepted;
    PhaseIrrelevant(s.core.jobs, j, Calling);
    AcceptedPrefix(s.core.jobs, j);
  }

  lemma StepKeepsBudget(s: State, e: Event, s': State)
    requires Serial(s) && Budget(s) && Calls(s) && Next(s, e, s')
    ensures Budget(s') && Calls(s')
  {
    hide Flat, Accepted;
    if s'.done == s.done + 1 {
      SettlingKeepsCalls(s, e, s');
    } else if e.Write? {
      WriteKeepsBudget(s, e.contents);
    } else if e.JobStarts? {
      StartKeepsCalls(s, e.j, s');
    }
  }

  /** The edge rule of the wake pattern: whatever makes the stream writable begins a new epoch. */
  lemma ReadinessSignals(s: State, e: Event, s': State)
    requires Next(s, e, s')
    ensures s.core.wakeEpoch <= s'.core.wakeEpoch
    ensures Writable(s'.core) && !Writable(s.core) ==> s.core.wakeEpoch < s'.core.wakeEpoch
  {
  }

  lemma StepKeepsParked(s: State, e: Event, s': State)
    requires Parked(s) && Next(s, e, s')
    ensures Parked(s')
  {
  }

  lemma StepKeepsHighWater(s: State, e: Event, s': State)
    requires Next(s, e, s')
    ensures s'.core.highWater == s.core.highWater
  {}

  lemma StartIsFine(highWater: int)
    ensures Invariant(Start(highWater)) && Start(highWater).core.highWater == highWater
  {}

  lemma {:induction false} RunKeepsInvariant(highWater: int, events: seq<Event>, states: seq<State>, i: nat)
    requires Run(highWater, events, states) && i < |states|
    ensures Invariant(states[i]) && states[i].core.highWater == highWater
  {
    hide Serial, Budget, Calls, Parked, Next;
    if i == 0 {
      StartIsFine(highWater);
    } else {
      RunKeepsInvariant(highWater, events, states, i - 1);
      assert StepAt(events, states, i - 1);
      StepKeepsSerial(states[i - 1], events[i - 1], states[i]);
      StepKeepsBudget(states[i - 1], events[i - 1], states[i]);
      StepKeepsParked(states[i - 1], events[i - 1], states[i]);
      StepKeepsHighWater(states[i - 1], events[i - 1], states[i]);
    }
  }

  /** The byte budget: at every point `#queued` is the size of the accepted chunks not yet settled,
    * within the high-water mark, and a write is accepted exactly when it fits the permit reported. */
  lemma BudgetIsExact(highWater: int, events: seq<Event>, states: seq<State>, i: nat, contents: Chunk)
    requires Run(highWater, events, states) && i < |states| && highWater >= 0
    ensures
      var s := states[i];
      && s.done <= |s.core.jobs|
      && s.core.queued == |Flat(Accepted(s.core.jobs))| - |Flat(Accepted(s.core.jobs[..s.done]))|
      && 0 <= s.core.queued <= highWater
      && (WriteStep(s.core, contents).1 == Written <==>
            Permit(s.core).Ok? && |contents| <= Permit(s.core).value)
  {
    RunKeepsInvariant(highWater, events, states, i);
    var s := states[i];
    FlatGrows(s.core.jobs, s.done);
  }

  lemma {:induction false} FlatGrows(jobs: seq<Job>, n: nat)
    requires n <= |jobs|
    ensures |Flat(Accepted(jobs[..n]))| <= |Flat(Accepted(jobs))|
    ensures |Flat(Accepted(jobs[..n]))| == |Flat(Accepted(jobs))| ==> Flat(Accepted(jobs[..n])) == Flat(Accepted(jobs))
  {
    if n == |jobs| {
      assert jobs[..n] == jobs;
    } else {
      var last := |jobs| - 1;
      FlatGrows(jobs[..last], n);
      assert jobs[..last][..n] == jobs[..n];
      FlatPush(Accepted(jobs[..last]), jobs[last].contents);
    }
  }

  /** Sink calls never overlap, and they are the first accepted chunks in the order of the writes. */
  lemma SinkCallsAreSerial(highWater: int, events: seq<Event>, states: seq<State>, i: nat)
    requires Run(highWater, events, states) && i < |states|
    ensures
      var s := states[i];
      && s.calls <= Accepted(s.core.jobs)
      && (forall j, k | 0 <= j < |s.core.jobs| && 0 <= k < |s.core.jobs| ::
            s.core.jobs[j].phase == Calling && s.core.jobs[k].phase == Calling ==> j == k)
      && (forall j, k :: 0 <= j < k < |s.core.jobs| && s.core.jobs[k].phase != Waiting ==> s.core.jobs[j].phase.Settled?)
  {
    RunKeepsInvariant(highWater, events, states, i);
  }

  lemma FailureIsLatched(s: State, e: Event, s': State)
    requires Serial(s) && Next(s, e, s') && s.core.failure != Undefined
    ensures s'.core.failure == s.core.failure && s'.calls == s.calls
  {
  }

  /** A failure is latched for good: from then on the sink is never called again. */
  lemma {:induction false} NoCallAfterFailure(highWater: int, events: seq<Event>, states: seq<State>, i: nat, k: nat)
    requires Run(highWater, events, states) && i <= k < |states|
    requires states[i].core.failure != Undefined
    ensures states[k].core.failure == states[i].core.failure && states[k].calls == states[i].calls
  {
    if i < k {
      NoCallAfterFailure(highWater, events, states, i, k - 1);
      RunKeepsInvariant(highWater, events, states, k - 1);
      assert StepAt(events, states, k - 1);
      FailureIsLatched(states[k - 1], events[k - 1], states[k]);
    }
  }

  /** A flush that completes normally leaves nothing queued and no failure; every accepted byte
    * then reached the sink successfully exactly when the sink never dropped bytes by throwing
    * `undefined`, which the code cannot tell from success. */
  lemma FlushMeansStored(highWater: int, events: seq<Event>, states: seq<State>, i: nat)
    requires Run(highWater, events, states) && i < |states| && highWater >= 0
    requires FlushStart(states[i].core) == Flushed || FlushResume(states[i].core) == Flushed
    ensures
      var s := states[i];
      && s.core.queued == 0 && s.core.failure == Undefined && !s.core.closed
      && (Flat(s.stored) == Flat(Accepted(s.core.jobs)) <==> Flat(s.dropped) == [])
  {
    BudgetIsExact(highWater, events, states, i, []);
    RunKeepsInvariant(highWater, events, states, i);
    var s := states[i];
    FlatGrows(s.core.jobs, s.done);
  }

  /** What a flush that does not park reports, on its first attempt and when woken: it completes if
    * and only if the stream is open and no failure is latched, it fails with `closed` if and only if
    * the stream is closed, and with the failure's text if and only if one is latched on an open
    * stream.  The first attempt parks if and only if bytes are queued on an open stream without
    * failure, and a woken one if bytes are queued without failure. */
  lemma FlushAnswers(highWater: int, events: seq<Event>, states: seq<State>, i: nat, a: FlushAttempt)
    requires Run(highWater, events, states) && i < |states| && highWater >= 0
    requires a == FlushStart(states[i].core) || a == FlushResume(states[i].core)
    ensures
      var c := states[i].core;
      && (a.ParkOn? <==> a == ParkOn(c.wakeEpoch))
      && (FlushStart(c).ParkOn? <==> !c.closed && c.failure == Undefined && c.queued > 0)
      && (FlushResume(c).ParkOn? <==> c.failure == Undefined && c.queued > 0)
      && (a.Flushed? ==> c.queued == 0)
      && (!a.ParkOn? ==>
            && (a == Flushed <==> !c.closed && c.failure == Undefined)
            && (a == FlushFailed(Closed) <==> c.closed)
            && (forall d :: a == FlushFailed(LastOperationFailed(d)) <==>
                  !c.closed && c.failure != Undefined && Describes(d, c.failure)))
  {
    BudgetIsExact(highWater, events, states, i, []);
  }

  /** What a write and the permit report: a closed stream refuses with `closed`, a failed one with
    * the failure's text; on an open one the write is made if it fits the room left and traps
    * otherwise, and the permit is the room left. */
  lemma WriteAnswers(highWater: int, events: seq<Event>, states: seq<State>, i: nat, contents: Chunk)
    requires Run(highWater, events, states) && i < |states| && highWater >= 0
    ensures
      var c := states[i].core;
      var r, permit := WriteStep(c, contents).1, Permit(c);
      && (r == Refused(Closed) <==> c.closed) && (permit == Err(Closed) <==> c.closed)
      && (forall d :: r == Refused(LastOperationFailed(d)) <==>
            !c.closed && c.failure != Undefined && Describes(d, c.failure))
      && (forall d :: permit == Err(LastOperationFailed(d)) <==>
            !c.closed && c.failure != Undefined && Describes(d, c.failure))
      && (r == Written <==> !c.closed && c.failure == Undefined && c.queued + |contents| <= highWater)
      && (r == Trapped <==> !c.closed && c.failure == Undefined && c.queued + |contents| > highWater)
      && (permit.Ok? ==> permit.value == highWater - c.queued)
  {
    BudgetIsExact(highWater, events, states, i, contents);
    RunKeepsInvariant(highWater, events, states, i);
  }

  /** The sink throws something that the code takes for a failure. */
  predicate Throws(e: Event) {
    e.SinkThrows? && e.e != Undefined
  }

  predicate FirstThrow(events: seq<Event>, k: nat) {
    k < |events| && Throws(events[k]) && forall m :: 0 <= m < k ==> !Throws(events[m])
  }

  /** A stream is closed exactly if it was disposed of, and its failure is the first thing other than
    * `undefined` that the sink threw. */
  lemma {:induction false} ClosedAndFailed(highWater: int, events: seq<Event>, states: seq<State>, i: nat)
    requires Run(highWater, events, states) && i < |states|
    ensures states[i].core.closed <==> exists k :: 0 <= k < i && events[k] == Dispose
    ensures states[i].core.failure == Undefined <==> forall k :: 0 <= k < i ==> !Throws(events[k])
    ensures states[i].core.failure != Undefined ==>
      exists k :: 0 <= k < i && FirstThrow(events, k) && events[k].e == states[i].core.failure
  {
    if i > 0 {
      ClosedAndFailed(highWater, events, states, i - 1);
      RunKeepsInvariant(highWater, events, states, i - 1);
      assert StepAt(events, states, i - 1);
      OnlyDisposeCloses(states[i - 1], events[i - 1], states[i]);
      if states[i - 1].core.failure != Undefined {
        FailureIsLatched(states[i - 1], events[i - 1], states[i]);
      } else {
        OnlyThrowsFail(states[i - 1], events[i - 1], states[i]);
      }
    }
  }

  lemma OnlyDisposeCloses(s: State, e: Event, s': State)
    requires Next(s, e, s')
    ensures s'.core.closed <==> s.core.closed || e == Dispose
  {}

  lemma OnlyThrowsFail(s: State, e: Event, s': State)
    requires Serial(s) && Next(s, e, s') && s.core.failure == Undefined
    ensures s'.core.failure == if Throws(e) then e.e else Undefined
  {}

  /** A sink that throws `undefined` loses a byte, and the flush completes. */
  lemma DroppedExample(highWater: int) returns (events: seq<Event>, states: seq<State>)
    requires highWater >= 1
    ensures Run(highWater, events, states)
    ensures
      var s := states[|events|];
      && FlushStart(s.core) == Flushed && Accepted(s.core.jobs) == [[7]]
      && s.stored == [] && s.dropped == [[7]]
  {
    events := [Write([7]), JobStarts(0), SinkThrows(0, Undefined)];
    var s0 := Start(highWater);
    var s1 := Step(s0, events[0]);
    assert s1.core.jobs[0].contents == [7] && Enabled(s1, events[1]);
    var s2 := Step(s1, events[1]);
    assert Enabled(s2, events[2]);
    var s3 := Step(s2, events[2]);
    assert s3.core.jobs[..0] == [] && Accepted(s3.core.jobs[..0]) == [];
    states := [s0, s1, s2, s3];
  }

  /** There is no room, and nothing else to tell a writer. */
  predicate Full(c: Core) {
    !c.closed && c.failure == Undefined && c.queued >= c.highWater
  }

  /** A pollable waits exactly while the stream is full. */
  lemma PollableWaits(s: State, id: nat)
    ensures id in AfterBlock(s, id).blockers <==> Full(s.core)
    ensures Full(s.core) ==> AfterBlock(s, id).blockers[id] == s.core.wakeEpoch
  {}

  /** No lost wakeup, and no deadlock: a waiter that nothing will wake yet waits for something still
    * false, and a flush waits on a job that is being served or can start. */
  lemma NoLostWakeup(highWater: int, events: seq<Event>, states: seq<State>, i: nat)
    requires Run(highWater, events, states) && i < |states| && highWater >= 0
    ensures
      var s := states[i];
      && (forall id :: id in s.blockers && !Enabled(s, BlockerWakes(id)) ==> Full(s.core))
      && (forall id :: id in s.flushers && !Enabled(s, FlusherWakes(id)) ==>
            && s.core.queued > 0 && s.core.failure == Undefined
            && s.done < |s.core.jobs|
            && (s.core.jobs[s.done].phase == Calling || Enabled(s, JobStarts(s.done))))
  {
    RunKeepsInvariant(highWater, events, states, i);
    var s := states[i];
    if s.done == |s.core.jobs| { assert s.core.jobs[..s.done] == s.core.jobs; }
  }
}
