/** wasi/src/io.ts, Pollable.timer and Pollable.block: waiting for a deadline in bounded sleeps.
  *
  * `armed` holds the promise of the sleep in flight; promises are numbered in the order they were
  * made.  The clock is the environment's: it may advance by any amount between two steps, and a
  * sleep may fire at any time, early ones included, except where a theorem says otherwise.
  */
module TimerPollable {
  import opened Prelude

  const TIMER_CHUNK_MAX_MS: int := 0x7fff_ffff
  const NS_PER_MS: int := 1_000_000
  const CHUNK_NS: int := TIMER_CHUNK_MAX_MS * NS_PER_MS

  /** `made` counts the promises made so far. */
  datatype Core = Core(deadlineNs: int, armed: Option<nat>, made: nat)

  datatype Attempt = Returned | ParkOn(promise: nat)

  function SleepDelay(deadlineNs: int, nowNs: int): real {
    var deltaMs := (deadlineNs - nowNs) as real / 1_000_000.0;
    var positive := if deltaMs > 0.0 then deltaMs else 0.0;
    if positive < TIMER_CHUNK_MAX_MS as real then positive else TIMER_CHUNK_MAX_MS as real
  }

  /** `wait`: the promise to await, and the delay handed to setTimeout if a sleep was armed. */
  function WaitStep(c: Core, nowNs: int): (Core, nat, Option<real>) {
    match c.armed
    case Some(promise) => (c, promise, None)
    case None => (c.(armed := Some(c.made), made := c.made + 1), c.made, Some(SleepDelay(c.deadlineNs, nowNs)))
  }

  predicate Ready(c: Core, nowNs: int) {
    nowNs >= c.deadlineNs
  }

  /** `block` from the call, or from a wake, to its return or next await. */
  function BlockStep(c: Core, nowNs: int): (Core, Attempt, Option<real>) {
    if Ready(c, nowNs) then (c, Returned, None)
    else var (c', promise, delay) := WaitStep(c, nowNs); (c', ParkOn(promise), delay)
  }

  class Timer {
    const deadlineNs: int
    var armed: Option<nat>
    var made: nat

    ghost function Fields(): Core
      reads this
    {
      Core(deadlineNs, armed, made)
    }

    constructor (deadlineNs: int)
      ensures Fields() == Core(deadlineNs, None, 0)
    {
      this.deadlineNs := deadlineNs;
      armed, made := None, 0;
    }

    method Wait(nowNs: int) returns (promise: nat, delay: Option<real>)
      modifies this
      ensures (Fields(), promise, delay) == WaitStep(old(Fields()), nowNs)
    {
      if armed == None {
        delay := Some(SleepDelay(deadlineNs, nowNs));
        armed, made := Some(made), made + 1;
      } else {
        delay := None;
      }
      promise := armed.value;
    }

    method SleepFired()
      modifies this
      ensures Fields() == old(Fields()).(armed := None)
    {
      armed := None;
    }

    method Block(nowNs: int) returns (a: Attempt, delay: Option<real>)
      modifies this
      ensures (Fields(), a, delay) == BlockStep(old(Fields()), nowNs)
    {
      if nowNs >= deadlineNs { return Returned, None; }
      var promise, asked := Wait(nowNs);
      return ParkOn(promise), asked;
    }
  }

  // ---- whole runs --------------------------------------------------------------------------

  datatype Sleep = Sleep(start: int, delayMs: real)

  /** The timer, the clock, the sleeps armed so far and the blocked calls with their promises. */
  datatype State = State(core: Core, clock: int, sleeps: seq<Sleep>, waiters: map<nat, nat>)

  /** `PollWaits` is the `waitPromise` of a poll that found the timer not ready. */
  datatype Event = Tick(ns: nat) | Block(id: nat) | WaiterWakes(id: nat) | PollWaits | SleepFires

  predicate Settled(c: Core, promise: nat) {
    promise < c.made && c.armed != Some(promise)
  }

  predicate Enabled(s: State, e: Event) {
    match e
    case Tick(_) => true
    case Block(id) => id !in s.waiters
    case WaiterWakes(id) => id in s.waiters && Settled(s.core, s.waiters[id])
    case PollWaits => !Ready(s.core, s.clock)
    case SleepFires => s.core.armed.Some?
  }

  function AfterBlock(s: State, id: nat): State {
    var (c, a, delay) := BlockStep(s.core, s.clock);
    State(c, s.clock,
      if delay.Some? then s.sleeps + [Sleep(s.clock, delay.value)] else s.sleeps,
      if a.ParkOn? then s.waiters[id := a.promise] else s.waiters - {id})
  }

  function AfterWait(s: State): State {
    var (c, promise, delay) := WaitStep(s.core, s.clock);
    s.(core := c, sleeps := if delay.Some? then s.sleeps + [Sleep(s.clock, delay.value)] else s.sleeps)
  }

  function Step(s: State, e: Event): State {
    match e
    case Tick(ns) => s.(clock := s.clock + ns)
    case Block(id) => AfterBlock(s, id)
    case WaiterWakes(id) => AfterBlock(s, id)
    case PollWaits => AfterWait(s)
    case SleepFires => s.(core := s.core.(armed := None))
  }

  ghost predicate StepAt(events: seq<Event>, states: seq<State>, i: nat)
    requires i < |events| && |states| == |events| + 1
  {
    Enabled(states[i], events[i]) && states[i + 1] == Step(states[i], events[i])
  }

  ghost predicate Run(deadlineNs: int, events: seq<Event>, states: seq<State>) {
    && |states| == |events| + 1
    && states[0].core == Core(deadlineNs, None, 0) && states[0].sleeps == [] && states[0].waiters == map[]
    && forall i :: 0 <= i < |events| ==> StepAt(events, states, i)
  }

  ghost predicate Invariant(s: State) {
    && |s.sleeps| == s.core.made
    && (s.core.armed.Some? ==> s.core.armed.value + 1 == s.core.made)
    && (forall id :: id in s.waiters ==> s.waiters[id] < s.core.made)
    && (forall k :: 0 <= k < |s.sleeps| ==>
          && s.sleeps[k].start <= s.clock && s.sleeps[k].start < s.core.deadlineNs
          && s.sleeps[k].delayMs == SleepDelay(s.core.deadlineNs, s.sleeps[k].start))
  }

  lemma StepKeepsInvariant(s: State, e: Event)
    requires Invariant(s) && Enabled(s, e)
    ensures Invariant(Step(s, e))
  {
  }

  lemma {:induction false} RunKeepsInvariant(deadlineNs: int, events: seq<Event>, states: seq<State>, i: nat)
    requires Run(deadlineNs, events, states) && i < |states|
    ensures Invariant(states[i]) && states[i].core.deadlineNs == deadlineNs
  {
    if i > 0 {
      RunKeepsInvariant(deadlineNs, events, states, i - 1);
      assert StepAt(events, states, i - 1);
      StepKeepsInvariant(states[i - 1], events[i - 1]);
    }
  }

  /** At every point of every run: a call that nothing will wake yet waits on the one sleep in
    * flight, which all such calls share; every sleep asks for what is left, or for 2^31-1 ms of it; and
    * a call returns only once the clock has reached the deadline. */
  lemma WaitingIsSound(deadlineNs: int, events: seq<Event>, states: seq<State>, i: nat)
    requires Run(deadlineNs, events, states) && i < |states|
    ensures
      var s := states[i];
      && (forall id :: id in s.waiters && !Enabled(s, WaiterWakes(id)) ==> s.core.armed == Some(s.waiters[id]))
      && (forall k :: 0 <= k < |s.sleeps| ==>
            var d, left := s.sleeps[k].delayMs * 1_000_000.0, deadlineNs - s.sleeps[k].start;
            0.0 < d <= left as real && s.sleeps[k].delayMs <= 2_147_483_647.0
            && (d == left as real || s.sleeps[k].delayMs == 2_147_483_647.0))
      && (forall id | i < |events| && id in s.waiters ::
            id in states[i + 1].waiters || (events[i] == WaiterWakes(id) && s.clock >= deadlineNs))
  {
    RunKeepsInvariant(deadlineNs, events, states, i);
    if i < |events| { assert StepAt(events, states, i); }
  }

  /** No sleep of the run fires before its delay has passed. */
  ghost predicate Patient(events: seq<Event>, states: seq<State>)
    requires |states| == |events| + 1
  {
    forall i :: 0 <= i < |events| && events[i] == SleepFires ==> FiresOnTime(states[i])
  }

  ghost predicate FiresOnTime(s: State) {
    s.sleeps != [] ==> (s.clock - s.sleeps[|s.sleeps| - 1].start) as real >= s.sleeps[|s.sleeps| - 1].delayMs * 1_000_000.0
  }

  /** Between sleeps, either the deadline has passed or every sleep so far took a whole chunk. */
  ghost predicate FullChunks(s: State) {
    s.sleeps != [] ==>
      && s.sleeps[0].start + (|s.sleeps| - 1) * CHUNK_NS <= s.sleeps[|s.sleeps| - 1].start
      && (s.core.armed == None ==>
            s.clock >= s.core.deadlineNs || s.clock >= s.sleeps[0].start + |s.sleeps| * CHUNK_NS)
  }

  lemma StepKeepsFullChunks(s: State, e: Event)
    requires Invariant(s) && FullChunks(s) && Enabled(s, e)
    requires e == SleepFires ==> FiresOnTime(s)
    ensures FullChunks(Step(s, e))
  {
    if e == SleepFires {
      var last := s.sleeps[|s.sleeps| - 1];
      assert last.delayMs == SleepDelay(s.core.deadlineNs, last.start);
    }
  }

  lemma {:induction false} RunKeepsFullChunks(deadlineNs: int, events: seq<Event>, states: seq<State>, i: nat)
    requires Run(deadlineNs, events, states) && Patient(events, states) && i < |states|
    ensures FullChunks(states[i])
  {
    if i > 0 {
      RunKeepsFullChunks(deadlineNs, events, states, i - 1);
      RunKeepsInvariant(deadlineNs, events, states, i - 1);
      assert StepAt(events, states, i - 1);
      StepKeepsFullChunks(states[i - 1], events[i - 1]);
    }
  }

  /** If sleeps last at least their delay, a deadline `remaining` ns away takes at most
    * `remaining` / (2^31-1 ms) sleeps, rounded up. */
  lemma SleepCountBound(deadlineNs: int, events: seq<Event>, states: seq<State>, i: nat)
    requires Run(deadlineNs, events, states) && Patient(events, states) && i < |states|
    requires states[i].sleeps != []
    ensures
      var remaining := deadlineNs - states[i].sleeps[0].start;
      remaining > 0 && |states[i].sleeps| <= (remaining + 2_147_483_647_000_000 - 1) / 2_147_483_647_000_000
  {
    RunKeepsFullChunks(deadlineNs, events, states, i);
    RunKeepsInvariant(deadlineNs, events, states, i);
    var n := |states[i].sleeps|;
    assert (n - 1) * CHUNK_NS < deadlineNs - states[i].sleeps[0].start;
  }
}
