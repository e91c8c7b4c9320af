/** wasi/src/http.ts, withTimeout: one operation raced against a timer armed in bounded chunks.
  *
  * The three callbacks (timer fired, operation resolved, operation rejected) run without
  * interruption; `Run` lets them happen in every order that timers and promises allow.
  */
module TimeoutRace {
  import opened Prelude

  const MAX_TIMEOUT_MS: nat := 2_147_483_647

  datatype Outcome<V, E> = Resolved(value: V) | Rejected(error: E) | TimedOut

  /** The closure's variables, the timers pending in the environment with their delays, and the
    * effects so far: calls of resolve/reject, of onTimeout, of onLateValue. */
  datatype Core<V, E> = Core(
    settled: bool, remainingMs: int, timer: nat, pending: map<nat, nat>,
    settlements: seq<Outcome<V, E>>, timeouts: nat, late: seq<V>)

  function Chunk(remainingMs: int): int {
    if remainingMs < MAX_TIMEOUT_MS then remainingMs else MAX_TIMEOUT_MS
  }

  /** `arm`: a fresh timer with the next delay. */
  function Armed<V, E>(c: Core<V, E>): Core<V, E>
    requires c.remainingMs >= 0
  {
    c.(timer := c.timer + 1, pending := c.pending[c.timer + 1 := Chunk(c.remainingMs)])
  }

  function TimerStep<V, E>(c: Core<V, E>, id: nat): Core<V, E>
    requires id in c.pending
  {
    var remaining := c.remainingMs - c.pending[id];
    var c' := c.(pending := c.pending - {id}, remainingMs := remaining);
    if remaining > 0 then Armed(c')
    else c'.(settled := true, timeouts := c.timeouts + 1, settlements := c.settlements + [TimedOut])
  }

  /** The two callbacks of `operation.then`. */
  function OperationStep<V, E>(c: Core<V, E>, o: Outcome<V, E>): Core<V, E> {
    if c.settled then (if o.Resolved? then c.(late := c.late + [o.value]) else c)
    else c.(settled := true, pending := c.pending - {c.timer}, settlements := c.settlements + [o])
  }

  class Race<V, E> {
    var settled: bool
    var remainingMs: int
    var timer: nat
    var pending: map<nat, nat>
    var settlements: seq<Outcome<V, E>>
    var timeouts: nat
    var late: seq<V>

    ghost function Fields(): Core<V, E>
      reads this
    {
      Core(settled, remainingMs, timer, pending, settlements, timeouts, late)
    }

    constructor (timeoutMs: nat)
      ensures Fields() == Initial(timeoutMs)
    {
      settled, remainingMs, timer, settlements, timeouts, late := false, timeoutMs, 0, [], 0, [];
      pending := map[];
      new;
      Arm();
    }

    method Arm()
      requires remainingMs >= 0
      modifies this
      ensures Fields() == Armed(old(Fields()))
    {
      timer := timer + 1;
      pending := pending[timer := if remainingMs < MAX_TIMEOUT_MS then remainingMs else MAX_TIMEOUT_MS];
    }

    method TimerFired(id: nat)
      requires id in pending
      modifies this
      ensures Fields() == TimerStep(old(Fields()), id)
    {
      remainingMs := remainingMs - pending[id];
      pending := pending - {id};
      if remainingMs > 0 {
        Arm();
        return;
      }
      settled := true;
      timeouts := timeouts + 1;
      settlements := settlements + [TimedOut];
    }

    method OperationResolved(value: V)
      modifies this
      ensures Fields() == OperationStep(old(Fields()), Resolved(value))
    {
      if settled {
        late := late + [value];
        return;
      }
      settled := true;
      pending := pending - {timer};
      settlements := settlements + [Resolved(value)];
    }

    method OperationRejected(error: E)
      modifies this
      ensures Fields() == OperationStep(old(Fields()), Rejected(error))
    {
      if settled { return; }
      settled := true;
      pending := pending - {timer};
      settlements := settlements + [Rejected(error)];
    }
  }

  // ---- whole runs --------------------------------------------------------------------------

  /** The race with what has happened to it: the delays of the timers that fired, and the
    * outcome of the operation once it has one. */
  datatype State<V, E> = State(core: Core<V, E>, fired: seq<nat>, operation: Option<Outcome<V, E>>)

  datatype Event<V, E> = TimerFires(id: nat) | Settles(outcome: Outcome<V, E>)

  function Initial<V, E>(timeoutMs: nat): Core<V, E> {
    Armed(Core(false, timeoutMs, 0, map[], [], 0, []))
  }

  predicate Enabled<V, E>(s: State<V, E>, e: Event<V, E>) {
    match e
    case TimerFires(id) => id in s.core.pending
    case Settles(o) => s.operation.None? && !o.TimedOut?
  }

  function Step<V, E>(s: State<V, E>, e: Event<V, E>): State<V, E>
    requires Enabled(s, e)
  {
    match e
    case TimerFires(id) => s.(core := TimerStep(s.core, id), fired := s.fired + [s.core.pending[id]])
    case Settles(o) => s.(core := OperationStep(s.core, o), operation := Some(o))
  }

  ghost predicate StepAt<V(!new), E(!new)>(events: seq<Event<V, E>>, states: seq<State<V, E>>, i: nat)
    requires i < |events| && |states| == |events| + 1
  {
    Enabled(states[i], events[i]) && states[i + 1] == Step(states[i], events[i])
  }

  ghost predicate Run<V(!new), E(!new)>(timeoutMs: nat, events: seq<Event<V, E>>, states: seq<State<V, E>>) {
    && |states| == |events| + 1
    && states[0] == State(Initial(timeoutMs), [], None)
    && forall i :: 0 <= i < |events| ==> StepAt(events, states, i)
  }

  function Sum(s: seq<nat>): nat {
    if s == [] then 0 else Sum(s[..|s| - 1]) + s[|s| - 1]
  }

  ghost predicate Invariant<V, E>(s: State<V, E>, timeoutMs: nat) {
    var c := s.core;
    && Sum(s.fired) + c.remainingMs == timeoutMs
    && (forall k :: 0 <= k < |s.fired| ==> s.fired[k] <= MAX_TIMEOUT_MS)
    && 0 <= c.remainingMs
    && (if c.settled then c.pending == map[]
        else c.pending == map[c.timer := Chunk(c.remainingMs)] && c.settlements == [] && c.late == [] && c.timeouts == 0)
    && (c.settled ==>
          || (c.settlements == [TimedOut] && c.timeouts == 1 && c.remainingMs == 0
              && c.late == if s.operation.Some? && s.operation.value.Resolved? then [s.operation.value.value] else [])
          || (s.operation.Some? && c.settlements == [s.operation.value] && c.timeouts == 0 && c.late == []))
    && (s.operation.Some? ==> c.settled && !s.operation.value.TimedOut?)
  }

  lemma SumOfOneMore(s: seq<nat>, d: nat)
    ensures Sum(s + [d]) == Sum(s) + d
  {
    assert (s + [d])[..|s|] == s;
  }

  lemma TimerKeepsInvariant<V, E>(s: State<V, E>, timeoutMs: nat, id: nat)
    requires Invariant(s, timeoutMs) && id in s.core.pending
    ensures Invariant(Step(s, TimerFires(id)), timeoutMs)
  {
    var s' := Step(s, TimerFires(id));
    SumOfOneMore(s.fired, s.core.pending[id]);
    hide Sum;
    assert s.core.pending - {id} == map[];
  }

  lemma OperationKeepsInvariant<V, E>(s: State<V, E>, timeoutMs: nat, o: Outcome<V, E>)
    requires Invariant(s, timeoutMs) && Enabled(s, Settles(o))
    ensures Invariant(Step(s, Settles(o)), timeoutMs)
  {
    if !s.core.settled { assert s.core.pending - {s.core.timer} == map[]; }
  }

  lemma {:induction false} RunKeepsInvariant<V(!new), E(!new)>(
    timeoutMs: nat, events: seq<Event<V, E>>, states: seq<State<V, E>>, i: nat)
    requires Run(timeoutMs, events, states) && i < |states|
    ensures Invariant(states[i], timeoutMs)
  {
    if i > 0 {
      RunKeepsInvariant(timeoutMs, events, states, i - 1);
      assert StepAt(events, states, i - 1);
      match events[i - 1]
      case TimerFires(id) => TimerKeepsInvariant(states[i - 1], timeoutMs, id);
      case Settles(o) => OperationKeepsInvariant(states[i - 1], timeoutMs, o);
    }
  }

  /** d is the smaller of two delays. */
  predicate IsLesser(d: int, a: int, b: int) {
    d <= a && d <= b && (d == a || d == b)
  }

  /** The race in every interleaving: it settles at most once, to the operation's outcome or to the
    * timeout; one timer is pending until then and none after, for what is left of the requested
    * time or the engine's ceiling of 2^31-1 ms; the delays that fired are bounded and, when the
    * timeout wins, add up to exactly the requested time; onTimeout runs exactly when
    * the timeout won, and a value is handed on as late exactly when it came after that. */
  lemma RaceIsFair<V(!new), E(!new)>(timeoutMs: nat, events: seq<Event<V, E>>, states: seq<State<V, E>>, i: nat)
    requires Run(timeoutMs, events, states) && i < |states|
    ensures
      var s, c := states[i], states[i].core;
      var timedOut := c.settlements == [TimedOut];
      && |c.settlements| == (if c.settled then 1 else 0) && |c.pending| == (if c.settled then 0 else 1)
      && (c.settled ==> timedOut || (s.operation.Some? && c.settlements == [s.operation.value]))
      && (s.operation.Some? ==> c.settled)
      && Sum(s.fired) <= timeoutMs && (timedOut ==> Sum(s.fired) == timeoutMs)
      && (forall k :: 0 <= k < |s.fired| ==> s.fired[k] <= MAX_TIMEOUT_MS)
      && (forall id :: id in c.pending ==> IsLesser(c.pending[id], timeoutMs - Sum(s.fired), 0x7fff_ffff))
      && c.timeouts == (if timedOut then 1 else 0)
      && (forall v :: c.late == [v] <==> timedOut && s.operation == Some(Resolved(v)))
      && |c.late| <= 1
  {
    RunKeepsInvariant(timeoutMs, events, states, i);
  }
}
