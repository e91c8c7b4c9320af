/** wasi/src/io.ts, poll: one call parks on many pollables and returns the ready ones.
  *
  * The pollables here are subscriptions to input streams and output streams, running as FedInput
  * and SinkOutput say, timers, running as TimerPollable says, and pollables of other providers, of
  * which only the wake rule of the interop seam is known.  `Run` interleaves their steps with any
  * number of poll calls.
  */
module Polling {
  import opened Prelude
  import FedInput
  import SinkOutput
  import TimerPollable

  /** What a pollable watches.  A foreign provider shows its readiness and its current epoch. */
  datatype Producer =
    | Input(fed: FedInput.State) | Output(sink: SinkOutput.State) | Timer(timer: TimerPollable.State)
    | Foreign(on: bool, era: nat)
  {
    predicate Ready() {
      match this
      case Input(fed) => FedInput.Ready(fed.core)
      case Output(sink) => SinkOutput.Writable(sink.core)
      case Timer(timer) => TimerPollable.Ready(timer.core, timer.clock)
      case Foreign(on, _) => on
    }

    /** The number of the promise that `waitPromise` answers: an epoch, or a timer's sleep. */
    function Promise(): nat {
      match this
      case Input(fed) => fed.core.wakeEpoch
      case Output(sink) => sink.core.wakeEpoch
      case Timer(timer) => if timer.core.armed.Some? then timer.core.armed.value else timer.core.made
      case Foreign(_, era) => era
    }

    /** After `waitPromise`: a timer has a sleep in flight. */
    function Waited(): Producer {
      if this.Timer? then Timer(TimerPollable.AfterWait(timer)) else this
    }

    predicate Settled(promise: nat) {
      if this.Timer? then TimerPollable.Settled(timer.core, promise) else promise < Promise()
    }
  }

  /** There is nothing to report: no bytes and no end, no room, or time left. */
  predicate Waiting(p: Producer) {
    match p
    case Input(fed) => fed.core.buffered <= 0 && !fed.core.eof && !fed.core.closed
    case Output(sink) => !sink.core.closed && sink.core.failure.Undefined? && sink.core.queued >= sink.core.highWater
    case Timer(timer) => timer.clock < timer.core.deadlineNs
    case Foreign(on, _) => !on
  }

  lemma ReadyIff(p: Producer)
    ensures p.Ready() <==> !Waiting(p)
  {}

  /** One step of a producer.  A foreign one may do anything that settles its wake promise whenever
    * it becomes ready. */
  ghost predicate ProducerStep(p: Producer, p': Producer) {
    match (p, p')
    case (Input(a), Input(b)) => exists e :: FedInput.Next(a, e, b)
    case (Output(a), Output(b)) => exists e :: SinkOutput.Next(a, e, b)
    case (Timer(a), Timer(b)) => exists e :: TimerPollable.Enabled(a, e) && b == TimerPollable.Step(a, e)
    case (Foreign(on, era), Foreign(on', era')) => era <= era' && (on' && !on ==> era < era')
    case _ => false
  }

  /** A stream settles its wake promise when it becomes ready.  A timer does not: the clock alone
    * makes it ready. */
  lemma EdgeRule(p: Producer, p': Producer)
    requires ProducerStep(p, p') && !p.Timer?
    ensures !p'.Timer? && p.Promise() <= p'.Promise() && (p'.Ready() && !p.Ready() ==> p.Promise() < p'.Promise())
  {
    match (p, p')
    case (Input(a), Input(b)) =>
      var e :| FedInput.Next(a, e, b);
      FedInput.ReadinessSignals(a, e, b);
    case (Output(a), Output(b)) =>
      var e :| SinkOutput.Next(a, e, b);
      SinkOutput.ReadinessSignals(a, e, b);
    case _ =>
  }

  /** What a timer does instead: a sleep that ended stays ended, the one in flight ends with its
    * sleep, and `waitPromise` leaves it in flight. */
  lemma TimerRule(p: Producer, p': Producer, promise: nat)
    requires ProducerStep(p, p') && p.Timer? && TimerPollable.Invariant(p.timer) && promise < p.timer.core.made
    ensures p'.Timer? && TimerPollable.Invariant(p'.timer) && promise < p'.timer.core.made
    ensures p.Settled(promise) ==> p'.Settled(promise)
  {
    var e :| TimerPollable.Enabled(p.timer, e) && p'.timer == TimerPollable.Step(p.timer, e);
    TimerPollable.StepKeepsInvariant(p.timer, e);
  }

  /** The indices of the ready pollables among the first `n`, ascending. */
  function ReadyIndices(ready: seq<bool>, n: nat): seq<nat>
    requires n <= |ready|
  {
    if n == 0 then [] else ReadyIndices(ready, n - 1) + (if ready[n - 1] then [n - 1] else [])
  }

  /** `readyNow`. */
  method ReadyNow(ready: seq<bool>) returns (out: seq<nat>)
    ensures out == ReadyIndices(ready, |ready|)
  {
    out := [];
    for i := 0 to |ready|
      invariant out == ReadyIndices(ready, i)
    {
      if ready[i] { out := out + [i]; }
    }
  }

  lemma {:induction false} ReadyIndicesMembers(ready: seq<bool>, n: nat)
    requires n <= |ready|
    ensures forall i :: i in ReadyIndices(ready, n) <==> 0 <= i < n && ready[i]
    ensures ReadyIndices(ready, n) == [] ==> forall i :: 0 <= i < n ==> !ready[i]
  {
    if n > 0 {
      ReadyIndicesMembers(ready, n - 1);
    }
  }

  lemma {:induction false} ReadyIndicesAscend(ready: seq<bool>, n: nat)
    requires n <= |ready|
    ensures forall j, k :: 0 <= j < k < |ReadyIndices(ready, n)| ==> ReadyIndices(ready, n)[j] < ReadyIndices(ready, n)[k]
  {
    if n > 0 {
      ReadyIndicesAscend(ready, n - 1);
      ReadyIndicesMembers(ready, n - 1);
      var rest := ReadyIndices(ready, n - 1);
      assert forall j :: 0 <= j < |rest| ==> rest[j] in rest;
    }
  }

  // ---- poll calls --------------------------------------------------------------------------

  /** A parked poll call: the producers it polls and the promises it races. */
  datatype PollCall = PollCall(pollables: seq<nat>, promises: seq<nat>)

  /** One stretch of `poll`: it traps on an empty list, returns indices, or parks. */
  datatype PollResult = Trapped | Returned(indices: seq<nat>) | Parks(promises: seq<nat>)

  datatype State = State(producers: seq<Producer>, calls: map<nat, PollCall>)

  predicate Watches(s: State, pollables: seq<nat>) {
    forall i :: 0 <= i < |pollables| ==> pollables[i] < |s.producers|
  }

  function Readiness(s: State, pollables: seq<nat>): seq<bool>
    requires Watches(s, pollables)
  {
    seq(|pollables|, i requires 0 <= i < |pollables| => s.producers[pollables[i]].Ready())
  }

  /** What the calls of `waitPromise` answer. */
  function Promises(s: State, pollables: seq<nat>): seq<nat>
    requires Watches(s, pollables)
  {
    seq(|pollables|, i requires 0 <= i < |pollables| => s.producers[pollables[i]].Promise())
  }

  /** The producers after the calls of `waitPromise`. */
  function AllWaited(producers: seq<Producer>, pollables: seq<nat>): (r: seq<Producer>)
    ensures |r| == |producers|
    ensures forall k :: 0 <= k < |producers| ==> r[k] == if k in pollables then producers[k].Waited() else producers[k]
  {
    seq(|producers|, k requires 0 <= k < |producers| => if k in pollables then producers[k].Waited() else producers[k])
  }

  /** A second `waitPromise` finds the first one's promise, and that is what `Promise` says. */
  lemma WaitedTwice(p: Producer)
    ensures p.Waited().Waited() == p.Waited() && p.Waited().Promise() == p.Promise()
    ensures p.Waited().Ready() == p.Ready()
    ensures p.Timer? ==> TimerPollable.WaitStep(p.timer.core, p.timer.clock).1 == p.Promise()
  {}

  /** `pollables.map((p) => p.waitPromise())`. */
  method WaitPromises(s: State, pollables: seq<nat>) returns (producers: seq<Producer>, promises: seq<nat>)
    requires Watches(s, pollables)
    ensures producers == AllWaited(s.producers, pollables) && promises == Promises(s, pollables)
  {
    hide Producer.Promise, Producer.Waited, Producer.Ready;
    producers, promises := s.producers, [];
    for i := 0 to |pollables|
      invariant producers == AllWaited(s.producers, pollables[..i])
      invariant promises == Promises(s, pollables)[..i]
    {
      var k := pollables[i];
      WaitedTwice(s.producers[k]);
      promises := promises + [producers[k].Promise()];
      producers := producers[k := producers[k].Waited()];
      assert pollables[..i + 1] == pollables[..i] + [k];
    }
    assert pollables[..|pollables|] == pollables;
  }

  function PollStep(s: State, pollables: seq<nat>): PollResult
    requires Watches(s, pollables)
  {
    if pollables == [] then Trapped
    else
      var ready := ReadyIndices(Readiness(s, pollables), |pollables|);
      if ready != [] then Returned(ready) else Parks(Promises(s, pollables))
  }

  /** The race of a parked call has settled: some promise it holds has. */
  ghost predicate RaceSettled(s: State, call: PollCall)
    requires Watches(s, call.pollables) && |call.promises| == |call.pollables|
  {
    exists i :: 0 <= i < |call.promises| && s.producers[call.pollables[i]].Settled(call.promises[i])
  }

  function AfterPoll(s: State, id: nat, pollables: seq<nat>): State
    requires Watches(s, pollables)
  {
    match PollStep(s, pollables)
    case Parks(promises) => State(AllWaited(s.producers, pollables), s.calls[id := PollCall(pollables, promises)])
    case _ => s.(calls := s.calls - {id})
  }

  datatype Event = ProducerMoves(k: nat) | PollStarts(id: nat, pollables: seq<nat>) | PollWakes(id: nat)

  ghost predicate WellFormed(s: State) {
    forall id :: id in s.calls ==> Watches(s, s.calls[id].pollables) && |s.calls[id].promises| == |s.calls[id].pollables|
  }

  ghost predicate Next(s: State, e: Event, s': State) {
    match e
    case ProducerMoves(k) =>
      && k < |s.producers| && |s'.producers| == |s.producers| && s'.calls == s.calls
      && ProducerStep(s.producers[k], s'.producers[k])
      && s'.producers == s.producers[k := s'.producers[k]]
    case PollStarts(id, pollables) =>
      id !in s.calls && Watches(s, pollables) && s' == AfterPoll(s, id, pollables)
    case PollWakes(id) =>
      && id in s.calls && Watches(s, s.calls[id].pollables)
      && |s.calls[id].promises| == |s.calls[id].pollables| && RaceSettled(s, s.calls[id])
      && s' == AfterPoll(s, id, s.calls[id].pollables)
  }

  ghost predicate StepAt(events: seq<Event>, states: seq<State>, i: nat)
    requires i < |events| && |states| == |events| + 1
  {
    Next(states[i], events[i], states[i + 1])
  }

  /** A run from any producers, before any poll call; timers are as their own runs leave them. */
  ghost predicate Run(events: seq<Event>, states: seq<State>) {
    && |states| == |events| + 1
    && states[0].calls == map[] && TimersFine(states[0])
    && forall i :: 0 <= i < |events| ==> StepAt(events, states, i)
  }

  /** The promise is one that the producer made, and a stream that has not settled it is not ready. */
  predicate Holds(p: Producer, promise: nat) {
    if p.Timer? then promise < p.timer.core.made
    else promise <= p.Promise() && (promise == p.Promise() ==> !p.Ready())
  }

  ghost predicate HoldsCall(s: State, call: PollCall)
    requires Watches(s, call.pollables) && |call.promises| == |call.pollables|
  {
    forall i :: 0 <= i < |call.promises| ==> Holds(s.producers[call.pollables[i]], call.promises[i])
  }

  ghost predicate TimersFine(s: State) {
    forall k :: 0 <= k < |s.producers| ==> s.producers[k].Timer? ==> TimerPollable.Invariant(s.producers[k].timer)
  }

  ghost predicate Invariant(s: State) {
    WellFormed(s) && TimersFine(s) && forall id :: id in s.calls ==> HoldsCall(s, s.calls[id])
  }

  /** `waitPromise` of a producer that is not ready keeps what is held, and its own promise is held. */
  lemma WaitedHolds(p: Producer, promise: nat)
    requires !p.Ready() && (p.Timer? ==> TimerPollable.Invariant(p.timer))
    ensures p.Waited().Timer? ==> TimerPollable.Invariant(p.Waited().timer)
    ensures Holds(p.Waited(), p.Promise())
    ensures Holds(p, promise) ==> Holds(p.Waited(), promise)
  {
    if p.Timer? { TimerPollable.StepKeepsInvariant(p.timer, TimerPollable.PollWaits); }
  }

  lemma NoneReady(s: State, pollables: seq<nat>)
    requires Watches(s, pollables) && PollStep(s, pollables).Parks?
    ensures forall k :: k in pollables ==> !s.producers[k].Ready()
  {
    var ready := Readiness(s, pollables);
    ReadyIndicesMembers(ready, |pollables|);
    forall i | 0 <= i < |pollables| ensures !s.producers[pollables[i]].Ready() {
      assert !ready[i];
    }
  }

  lemma ParkingKeepsTimers(s: State, id: nat, pollables: seq<nat>)
    requires TimersFine(s) && Watches(s, pollables) && PollStep(s, pollables).Parks?
    ensures TimersFine(AfterPoll(s, id, pollables))
  {
    hide Holds, TimerPollable.Invariant;
    NoneReady(s, pollables);
    forall k | 0 <= k < |s.producers| && k in pollables
      ensures s.producers[k].Waited().Timer? ==> TimerPollable.Invariant(s.producers[k].Waited().timer)
    {
      WaitedHolds(s.producers[k], 0);
    }
  }

  lemma ParkingHolds(s: State, pollables: seq<nat>, k: nat, promise: nat)
    requires TimersFine(s) && Watches(s, pollables) && PollStep(s, pollables).Parks? && k < |s.producers|
    ensures Holds(s.producers[k], promise) ==> Holds(AllWaited(s.producers, pollables)[k], promise)
    ensures k in pollables ==> Holds(AllWaited(s.producers, pollables)[k], s.producers[k].Promise())
  {
    hide Holds, TimerPollable.Invariant;
    NoneReady(s, pollables);
    if k in pollables { WaitedHolds(s.producers[k], promise); }
  }

  lemma ParkingKeepsInvariant(s: State, id: nat, pollables: seq<nat>)
    requires Invariant(s) && Watches(s, pollables) && PollStep(s, pollables).Parks?
    ensures Invariant(AfterPoll(s, id, pollables))
  {
    hide Holds, TimersFine, ReadyIndices;
    var s' := AfterPoll(s, id, pollables);
    ParkingKeepsTimers(s, id, pollables);
    forall other | other in s'.calls ensures HoldsCall(s', s'.calls[other]) {
      var call := s'.calls[other];
      if other != id { assert HoldsCall(s, call); }
      forall i | 0 <= i < |call.promises| ensures Holds(s'.producers[call.pollables[i]], call.promises[i]) {
        ParkingHolds(s, pollables, call.pollables[i], call.promises[i]);
      }
    }
  }

  lemma PollKeepsInvariant(s: State, id: nat, pollables: seq<nat>)
    requires Invariant(s) && Watches(s, pollables)
    ensures Invariant(AfterPoll(s, id, pollables))
  {
    hide Holds, TimersFine, ReadyIndices;
    if PollStep(s, pollables).Parks? {
      ParkingKeepsInvariant(s, id, pollables);
    } else {
      var s' := AfterPoll(s, id, pollables);
      SameTimers(s, s');
      forall other | other in s'.calls ensures HoldsCall(s', s'.calls[other]) {
        assert HoldsCall(s, s.calls[other]);
      }
    }
  }

  lemma SameTimers(s: State, s': State)
    requires TimersFine(s) && s'.producers == s.producers
    ensures TimersFine(s')
  {}

  lemma MoveKeepsHeld(p: Producer, p': Producer, promise: nat)
    requires ProducerStep(p, p') && Holds(p, promise) && (p.Timer? ==> TimerPollable.Invariant(p.timer))
    ensures Holds(p', promise) && (p.Settled(promise) ==> p'.Settled(promise))
  {
    if p.Timer? { TimerRule(p, p', promise); } else { EdgeRule(p, p'); }
  }

  lemma MoveKeepsTimers(p: Producer, p': Producer)
    requires ProducerStep(p, p') && (p.Timer? ==> TimerPollable.Invariant(p.timer))
    ensures p'.Timer? ==> TimerPollable.Invariant(p'.timer)
  {
    if p.Timer? {
      var e :| TimerPollable.Enabled(p.timer, e) && p'.timer == TimerPollable.Step(p.timer, e);
      TimerPollable.StepKeepsInvariant(p.timer, e);
    }
  }

  lemma StepKeepsInvariant(s: State, e: Event, s': State)
    requires Invariant(s) && Next(s, e, s')
    ensures Invariant(s')
  {
    hide Holds, ProducerStep, TimerPollable.Invariant;
    match e
    case ProducerMoves(k) =>
      MoveKeepsTimers(s.producers[k], s'.producers[k]);
      forall promise: nat | Holds(s.producers[k], promise) ensures Holds(s'.producers[k], promise) {
        MoveKeepsHeld(s.producers[k], s'.producers[k], promise);
      }
      forall id | id in s'.calls ensures HoldsCall(s', s'.calls[id]) {
        assert HoldsCall(s, s.calls[id]);
      }
    case PollStarts(id, pollables) => PollKeepsInvariant(s, id, pollables);
    case PollWakes(id) => PollKeepsInvariant(s, id, s.calls[id].pollables);
  }

  lemma {:induction false} RunKeepsInvariant(events: seq<Event>, states: seq<State>, i: nat)
    requires Run(events, states) && i < |states|
    ensures Invariant(states[i])
  {
    if i > 0 {
      RunKeepsInvariant(events, states, i - 1);
      assert StepAt(events, states, i - 1);
      StepKeepsInvariant(states[i - 1], events[i - 1], states[i]);
    }
  }

  /** The timer's latest sleep was asked to end by the deadline. */
  ghost predicate DueByDeadline(t: TimerPollable.State) {
    && t.sleeps != []
    && var last := t.sleeps[|t.sleeps| - 1];
       last.start as real + last.delayMs * 1_000_000.0 <= t.core.deadlineNs as real
  }

  /** No lost wakeup: while none of the promises a poll call races has settled, no stream it polls is
    * ready, and every timer it polls has the sleep that the call races in flight, which was asked to
    * end by the timer's deadline; so a timer is ready then only while its sleep is overdue. */
  lemma NoLostWakeup(events: seq<Event>, states: seq<State>, i: nat, id: nat)
    requires Run(events, states) && i < |states| && id in states[i].calls
    ensures
      var s, call := states[i], states[i].calls[id];
      && Watches(s, call.pollables) && |call.promises| == |call.pollables|
      && (!RaceSettled(s, call) ==> forall k :: 0 <= k < |call.pollables| ==>
            var p := s.producers[call.pollables[k]];
            if p.Timer? then p.timer.core.armed == Some(call.promises[k]) && DueByDeadline(p.timer) else Waiting(p))
  {
    RunKeepsInvariant(events, states, i);
    var s, call := states[i], states[i].calls[id];
    assert HoldsCall(s, call);
    if !RaceSettled(s, call) {
      forall k | 0 <= k < |call.pollables| ensures s.producers[call.pollables[k]].Ready() <==> !Waiting(s.producers[call.pollables[k]]) {
        ReadyIff(s.producers[call.pollables[k]]);
      }
      forall k | 0 <= k < |call.pollables| && s.producers[call.pollables[k]].Timer?
        ensures s.producers[call.pollables[k]].timer.core.armed == Some(call.promises[k])
        ensures DueByDeadline(s.producers[call.pollables[k]].timer)
      {
        var p := s.producers[call.pollables[k]];
        assert !p.Settled(call.promises[k]) && Holds(p, call.promises[k]);
        SleepIsDue(p.timer);
      }
    }
  }

  lemma SleepIsDue(t: TimerPollable.State)
    requires TimerPollable.Invariant(t) && t.core.armed.Some?
    ensures DueByDeadline(t)
  {
    var last := t.sleeps[|t.sleeps| - 1];
    assert last.delayMs == TimerPollable.SleepDelay(t.core.deadlineNs, last.start);
  }

  /** `poll` returns exactly the ready indices, ascending and never empty; it parks exactly when
    * none is ready, and traps exactly on an empty list. */
  lemma PollReturnsTheReady(s: State, pollables: seq<nat>)
    requires Watches(s, pollables)
    ensures
      match PollStep(s, pollables)
      case Trapped => pollables == []
      case Returned(indices) =>
        && indices != []
        && (forall i :: i in indices <==> 0 <= i < |pollables| && !Waiting(s.producers[pollables[i]]))
        && (forall j, k :: 0 <= j < k < |indices| ==> indices[j] < indices[k])
      case Parks(_) => pollables != [] && forall i :: 0 <= i < |pollables| ==> Waiting(s.producers[pollables[i]])
  {
    var ready := Readiness(s, pollables);
    ReadyIndicesMembers(ready, |pollables|);
    ReadyIndicesAscend(ready, |pollables|);
    forall i | 0 <= i < |pollables|
      ensures i in ReadyIndices(ready, |pollables|) <==> !Waiting(s.producers[pollables[i]])
    {
      assert ready[i] == s.producers[pollables[i]].Ready();
      ReadyIff(s.producers[pollables[i]]);
    }
  }
}
