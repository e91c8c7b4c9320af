/** wasi/src/io.ts, FedInputStream: a byte stream fed by an asynchronous source.
  *
  * The code between two awaits runs without interruption, so each such stretch is one method of
  * the class below, proved equal to a transition on the value `Core`.  A wake promise is the epoch
  * in which it was made: it has settled once a later epoch began.  `Run` interleaves the source,
  * the feed loop, readers, pollables and dispose in every order, and the theorems hold of every
  * state it reaches.
  */
module FedInput {
  import opened Prelude
  import opened StreamTypes

  /** The fields of a FedInputStream.  `resumeId` names the promise that `#resume` settles
    * (0 for the initial no-op), `fired` the resume promises settled so far. */
  datatype Core = Core(
    buffer: seq<Chunk>, buffered: int, eof: bool, failure: Thrown, closed: bool,
    highWater: int, wakeEpoch: nat, resumeId: nat, fired: set<nat>)

  /** Where the feed loop stands: awaiting the source, parked on a resume promise, or returned. */
  datatype FeedPc = Pulling | ParkedOn(id: nat) | Done

  /** One stretch of a blocking read: it settles, or it parks on a wake epoch. */
  datatype Attempt = Settled(result: Result<Chunk, StreamError>) | ParkOn(epoch: nat)

  /** The chunks left once the first `n` bytes are gone. */
  function DropBytes(chunks: seq<Chunk>, n: nat): seq<Chunk> {
    if n == 0 || chunks == [] then chunks
    else if |chunks[0]| <= n then DropBytes(chunks[1..], n - |chunks[0]|)
    else [chunks[0][n..]] + chunks[1..]
  }

  ghost predicate NonEmptyChunks(chunks: seq<Chunk>) {
    forall i :: 0 <= i < |chunks| ==> chunks[i] != []
  }

  lemma {:induction false} DropBytesDropsBytes(chunks: seq<Chunk>, n: nat)
    requires n <= |Flat(chunks)| && NonEmptyChunks(chunks)
    ensures Flat(DropBytes(chunks, n)) == Flat(chunks)[n..]
    ensures NonEmptyChunks(DropBytes(chunks, n))
  {
    if n == 0 || chunks == [] {
    } else if |chunks[0]| <= n {
      DropBytesDropsBytes(chunks[1..], n - |chunks[0]|);
    } else {
      assert ([chunks[0][n..]] + chunks[1..])[1..] == chunks[1..];
    }
  }

  /** One turn of the copy loop: the first `n` bytes start with `take` bytes of the head chunk. */
  lemma SplitHead(chunks: seq<Chunk>, n: nat)
    requires NonEmptyChunks(chunks) && 0 < n <= |Flat(chunks)|
    ensures
      && chunks != []
      && var take := if |chunks[0]| < n then |chunks[0]| else n;
      && var rest := if take == |chunks[0]| then chunks[1..] else [chunks[0][take..]] + chunks[1..];
      && NonEmptyChunks(rest) && n - take <= |Flat(rest)|
      && DropBytes(chunks, n) == DropBytes(rest, n - take)
      && forall front: Chunk :: front + Flat(chunks)[..n] == front + chunks[0][..take] + Flat(rest)[..n - take]
  {
    var take := if |chunks[0]| < n then |chunks[0]| else n;
    var rest := if take == |chunks[0]| then chunks[1..] else [chunks[0][take..]] + chunks[1..];
    if take < |chunks[0]| {
      assert rest[1..] == chunks[1..];
    }
    assert Flat(chunks)[..n] == chunks[0][..take] + Flat(rest)[..n - take];
  }

  method SetAt(out: array<bv8>, at: nat, bytes: Chunk)
    requires at + |bytes| <= out.Length
    modifies out
    ensures out[..at + |bytes|] == old(out[..at]) + bytes
  {
    forall k | 0 <= k < |bytes| { out[at + k] := bytes[k]; }
    assert forall k :: 0 <= k < at ==> out[k] == old(out[k]);
  }

  // ---- the transitions ---------------------------------------------------------------------

  predicate Ready(c: Core) {
    c.buffered > 0 || c.eof || c.closed
  }

  function Signalled(c: Core): Core {
    c.(wakeEpoch := c.wakeEpoch + 1)
  }

  function Resumed(c: Core): Core {
    c.(fired := c.fired + {c.resumeId})
  }

  function TakeCount(c: Core, len: nat): nat
    requires c.buffered >= 0
  {
    if len < c.buffered then len else c.buffered
  }

  function Taken(c: Core, len: nat): Core
    requires c.buffered >= 0
  {
    var n := TakeCount(c, len);
    var c' := c.(buffer := DropBytes(c.buffer, n), buffered := c.buffered - n);
    if c'.buffered < c.highWater then Resumed(c') else c'
  }

  ghost predicate Consistent(c: Core) {
    c.buffered == |Flat(c.buffer)| && NonEmptyChunks(c.buffer)
  }

  /** `read`: what it returns or throws, and the fields after it. */
  ghost function ReadStep(c: Core, len: nat): (Core, Result<Chunk, StreamError>)
    requires Consistent(c)
  {
    if c.closed then (c, Err(Closed))
    else if c.buffered > 0 then (Taken(c, len), Ok(Flat(c.buffer)[..TakeCount(c, len)]))
    else if c.failure != Undefined then (c, Err(LastOperationFailed(DebugString(c.failure))))
    else if c.eof then (c, Err(Closed))
    else (c, Ok([]))
  }

  ghost function BlockingReadStep(c: Core, len: nat): (Core, Attempt)
    requires Consistent(c)
  {
    if Ready(c) then var (c', r) := ReadStep(c, len); (c', Settled(r))
    else (c, ParkOn(c.wakeEpoch))
  }

  /** The test of the feed's back-pressure loop. */
  function FeedRecheck(c: Core): (Core, FeedPc) {
    if c.buffered >= c.highWater && !c.closed
    then (c.(resumeId := c.resumeId + 1), ParkedOn(c.resumeId + 1))
    else (c, Pulling)
  }

  function FeedChunkStep(c: Core, chunk: Chunk): (Core, FeedPc) {
    if c.closed then (c, Done)
    else if chunk == [] then (c, Pulling)
    else FeedRecheck(Signalled(c.(buffer := c.buffer + [chunk], buffered := c.buffered + |chunk|)))
  }

  function FeedEndStep(c: Core): Core {
    Signalled(c.(eof := true))
  }

  function FeedThrowStep(c: Core, e: Thrown): Core {
    Signalled(c.(failure := e, eof := true))
  }

  function DisposeStep(c: Core): Core {
    Signalled(Resumed(c.(closed := true)))
  }

  // ---- the class ---------------------------------------------------------------------------

  class FedInputStream {
    var buffer: seq<Chunk>
    var buffered: int
    var eof: bool
    var failure: Thrown
    var closed: bool
    const highWater: int
    var wakeEpoch: nat
    var resumeId: nat
    var fired: set<nat>

    ghost function Fields(): Core
      reads this
    {
      Core(buffer, buffered, eof, failure, closed, highWater, wakeEpoch, resumeId, fired)
    }

    ghost predicate Valid()
      reads this
    {
      Consistent(Fields())
    }

    constructor (highWater: int)
      ensures Fields() == Initial(highWater) && Valid()
    {
      buffer, buffered, eof, failure, closed := [], 0, false, Undefined, false;
      this.highWater := highWater;
      wakeEpoch, resumeId, fired := 0, 0, {};
    }

    method Signal()
      modifies this`wakeEpoch
      ensures Fields() == Signalled(old(Fields()))
    {
      wakeEpoch := wakeEpoch + 1;
    }

    method Resume()
      modifies this`fired
      ensures Fields() == Resumed(old(Fields()))
    {
      fired := fired + {resumeId};
    }

    method FeedChunk(chunk: Chunk) returns (pc: FeedPc)
      requires Valid()
      modifies this
      ensures Valid()
      ensures (Fields(), pc) == FeedChunkStep(old(Fields()), chunk)
    {
      if closed { return Done; }
      if |chunk| == 0 { return Pulling; }
      FlatAppend(buffer, [chunk]);
      assert Flat([chunk]) == chunk;
      buffer := buffer + [chunk];
      buffered := buffered + |chunk|;
      Signal();
      pc := Backpressure();
    }

    /** The `while` test of the feed, entered after a push and again after each resume. */
    method Backpressure() returns (pc: FeedPc)
      requires Valid()
      modifies this`resumeId
      ensures Valid()
      ensures (Fields(), pc) == FeedRecheck(old(Fields()))
    {
      if buffered >= highWater && !closed {
        resumeId := resumeId + 1;
        return ParkedOn(resumeId);
      }
      return Pulling;
    }

    method FeedEnd()
      requires Valid()
      modifies this
      ensures Valid() && Fields() == FeedEndStep(old(Fields()))
    {
      eof := true;
      Signal();
    }

    method FeedThrow(e: Thrown)
      requires Valid()
      modifies this
      ensures Valid() && Fields() == FeedThrowStep(old(Fields()), e)
    {
      failure := e;
      eof := true;
      Signal();
    }

    /** One turn of the copy loop of `#take`. */
    method CopyHead(out: array<bv8>, at: nat) returns (next: nat)
      requires at < out.Length && NonEmptyChunks(buffer) && out.Length - at <= |Flat(buffer)|
      modifies this`buffer, out
      ensures at < next <= out.Length && NonEmptyChunks(buffer) && out.Length - next <= |Flat(buffer)|
      ensures DropBytes(buffer, out.Length - next) == DropBytes(old(buffer), out.Length - at)
      ensures out[..next] + Flat(buffer)[..out.Length - next] == old(out[..at] + Flat(buffer)[..out.Length - at])
    {
      SplitHead(buffer, out.Length - at);
      assert |buffer[0]| > 0;
      hide DropBytes, Flat, NonEmptyChunks;
      var head := buffer[0];
      var take := if |head| < out.Length - at then |head| else out.Length - at;
      SetAt(out, at, head[..take]);
      next := at + take;
      if take == |head| { buffer := buffer[1..]; } else { buffer := [head[take..]] + buffer[1..]; }
    }

    /** The copy loop of `#take`: moves the first `n` buffered bytes into a new array. */
    method CopyOut(n: nat) returns (out: array<bv8>)
      requires Valid() && n <= buffered
      modifies this`buffer
      ensures fresh(out) && out[..] == Flat(old(buffer))[..n]
      ensures buffer == DropBytes(old(buffer), n)
    {
      out := new bv8[n];
      var at := 0;
      while at < out.Length
        invariant 0 <= at <= n
        invariant NonEmptyChunks(buffer) && n - at <= |Flat(buffer)|
        invariant DropBytes(old(buffer), n) == DropBytes(buffer, n - at)
        invariant Flat(old(buffer))[..n] == out[..at] + Flat(buffer)[..n - at]
      {
        at := CopyHead(out, at);
      }
      assert out[..at] + Flat(buffer)[..n - at] == out[..];
    }

    method Take(len: nat) returns (out: array<bv8>)
      requires Valid()
      modifies this
      ensures Valid() && fresh(out)
      ensures Fields() == Taken(old(Fields()), len)
      ensures out[..] == Flat(old(buffer))[..TakeCount(old(Fields()), len)]
    {
      var n := if len < buffered then len else buffered;
      DropBytesDropsBytes(buffer, n);
      out := CopyOut(n);
      buffered := buffered - out.Length;
      if buffered < highWater { Resume(); }
    }

    method Read(len: nat) returns (r: Result<Chunk, StreamError>)
      requires Valid()
      modifies this
      ensures Valid() && (Fields(), r) == ReadStep(old(Fields()), len)
    {
      if closed { return Err(Closed); }
      if buffered > 0 {
        var out := Take(len);
        return Ok(out[..]);
      }
      if failure != Undefined { return Err(LastOperationFailed(DebugString(failure))); }
      if eof { return Err(Closed); }
      return Ok([]);
    }

    /** `blockingRead`, from the call or from a wake to its next await or its settlement. */
    method BlockingRead(len: nat) returns (a: Attempt)
      requires Valid()
      modifies this
      ensures Valid() && (Fields(), a) == BlockingReadStep(old(Fields()), len)
    {
      if buffered > 0 || eof || closed {
        var r := Read(len);
        return Settled(r);
      }
      return ParkOn(wakeEpoch);
    }

    method Dispose()
      requires Valid()
      modifies this
      ensures Valid() && Fields() == DisposeStep(old(Fields()))
    {
      closed := true;
      Resume();
      Signal();
    }
  }

  // ---- whole runs --------------------------------------------------------------------------

  datatype SourceEnd = Streaming | Ended | Threw(e: Thrown)

  datatype Reader = Reader(len: nat, epoch: nat)

  /** The stream with the tasks around it and the history of the run: what the source yielded,
    * which of that was pushed, and what the reads returned. */
  datatype State = State(
    core: Core, feed: FeedPc, readers: map<nat, Reader>, blockers: map<nat, nat>,
    source: SourceEnd, yielded: seq<Chunk>, pushed: seq<Chunk>, delivered: Chunk)

  datatype Event =
    | SourceYields(chunk: Chunk) | SourceEnds | SourceThrows(e: Thrown) | FeedWakes
    | Read(len: nat) | BlockingRead(id: nat, len: nat) | ReaderWakes(id: nat)
    | Block(id: nat) | BlockerWakes(id: nat) | Dispose

  function Initial(highWater: int): Core {
    Core([], 0, false, Undefined, false, highWater, 0, 0, {})
  }

  function Start(highWater: int): State {
    State(Initial(highWater), Pulling, map[], map[], Streaming, [], [], [])
  }

  /** The event can happen now: promises wake their waiters only once settled. */
  predicate Enabled(s: State, e: Event) {
    match e
    case SourceYields(_) => s.feed == Pulling
    case SourceEnds => s.feed == Pulling
    case SourceThrows(_) => s.feed == Pulling
    case FeedWakes => s.feed.ParkedOn? && s.feed.id in s.core.fired
    case Read(_) => true
    case BlockingRead(id, _) => id !in s.readers
    case ReaderWakes(id) => id in s.readers && s.readers[id].epoch < s.core.wakeEpoch
    case Block(id) => id !in s.blockers
    case BlockerWakes(id) => id in s.blockers && s.blockers[id] < s.core.wakeEpoch
    case Dispose => true
  }

  function Received(r: Result<Chunk, StreamError>): Chunk {
    match r case Ok(bytes) => bytes case Err(_) => []
  }

  ghost function AfterAttempt(s: State, id: nat, len: nat): State
    requires Consistent(s.core)
  {
    match BlockingReadStep(s.core, len)
    case (c, Settled(r)) => s.(core := c, readers := s.readers - {id}, delivered := s.delivered + Received(r))
    case (c, ParkOn(epoch)) => s.(core := c, readers := s.readers[id := Reader(len, epoch)])
  }

  /** `Pollable.block` of a subscription: it returns, or it parks on the current epoch. */
  function AfterBlock(s: State, id: nat): State {
    if Ready(s.core) then s.(blockers := s.blockers - {id})
    else s.(blockers := s.blockers[id := s.core.wakeEpoch])
  }

  ghost function Step(s: State, e: Event): State
    requires Enabled(s, e) && Consistent(s.core)
  {
    match e
    case SourceYields(chunk) =>
      var (c, pc) := FeedChunkStep(s.core, chunk);
      s.(core := c, feed := pc, yielded := s.yielded + [chunk],
         pushed := if s.core.closed || chunk == [] then s.pushed else s.pushed + [chunk])
    case SourceEnds => s.(core := FeedEndStep(s.core), feed := Done, source := Ended)
    case SourceThrows(e) => s.(core := FeedThrowStep(s.core, e), feed := Done, source := Threw(e))
    case FeedWakes => var (c, pc) := FeedRecheck(s.core); s.(core := c, feed := pc)
    case Read(len) =>
      var (c, r) := ReadStep(s.core, len);
      s.(core := c, delivered := s.delivered + Received(r))
    case BlockingRead(id, len) => AfterAttempt(s, id, len)
    case ReaderWakes(id) => AfterAttempt(s, id, s.readers[id].len)
    case Block(id) => AfterBlock(s, id)
    case BlockerWakes(id) => AfterBlock(s, id)
    case Dispose => s.(core := DisposeStep(s.core))
  }

  ghost predicate Next(s: State, e: Event, s': State) {
    Consistent(s.core) && Enabled(s, e) && s' == Step(s, e)
  }

  ghost predicate StepAt(events: seq<Event>, states: seq<State>, i: nat)
    requires i < |events| && |states| == |events| + 1
  {
    Next(states[i], events[i], states[i + 1])
  }

  /** A run: a fresh stream, and one state after each event. */
  ghost predicate Run(highWater: int, events: seq<Event>, states: seq<State>) {
    && |states| == |events| + 1
    && states[0] == Start(highWater)
    && forall i :: 0 <= i < |events| ==> StepAt(events, states, i)
  }

  function LastLength(chunks: seq<Chunk>): nat {
    if chunks == [] then 0 else |chunks[|chunks| - 1]|
  }

  ghost predicate Bytes(s: State) {
    && Consistent(s.core)
    && s.delivered + Flat(s.core.buffer) == Flat(s.pushed)
    && (!s.core.closed ==> Flat(s.pushed) == Flat(s.yielded))
  }

  ghost predicate Source(s: State) {
    && (s.core.eof <==> !s.source.Streaming?)
    && (s.core.eof ==> s.feed == Done)
    && (s.feed == Done ==> s.core.eof || s.core.closed)
    && s.core.failure == if s.source.Threw? then s.source.e else Undefined
  }

  ghost predicate Budget(s: State) {
    s.core.highWater >= 1 ==>
      && s.core.buffered < s.core.highWater + LastLength(s.pushed)
      && (s.feed == Pulling && !s.core.closed ==> s.core.buffered < s.core.highWater)
  }

  /** A waiter parked on the current epoch is one whose guard is still false. */
  ghost predicate Parked(s: State) {
    && (forall id :: id in s.readers ==> s.readers[id].epoch <= s.core.wakeEpoch)
    && (forall id :: id in s.readers && s.readers[id].epoch == s.core.wakeEpoch ==> !Ready(s.core))
    && (forall id :: id in s.blockers ==> s.blockers[id] <= s.core.wakeEpoch)
    && (forall id :: id in s.blockers && s.blockers[id] == s.core.wakeEpoch ==> !Ready(s.core))
  }

  ghost predicate FeedParked(s: State) {
    && (forall id :: id in s.core.fired ==> id <= s.core.resumeId)
    && (s.feed.ParkedOn? ==> s.feed.id == s.core.resumeId)
    && (s.feed.ParkedOn? && s.feed.id !in s.core.fired ==> s.core.buffered >= s.core.highWater && !s.core.closed)
  }

  ghost predicate Invariant(s: State) {
    Bytes(s) && Source(s) && Budget(s) && Parked(s) && FeedParked(s)
  }

  lemma ReadKeepsBytes(c: Core, len: nat)
    requires Consistent(c)
    ensures
      var (c', r) := ReadStep(c, len);
      Consistent(c') && Received(r) + Flat(c'.buffer) == Flat(c.buffer) && c'.closed == c.closed
  {
    hide Flat, DropBytes;
    DropBytesDropsBytes(c.buffer, TakeCount(c, len));
  }

  lemma AttemptKeepsBytes(s: State, id: nat, len: nat)
    requires Bytes(s)
    ensures Bytes(AfterAttempt(s, id, len))
  {
    if Ready(s.core) {
      var (c, r) := ReadStep(s.core, len);
      ReadKeepsBytes(s.core, len);
      assert s.delivered + Received(r) + Flat(c.buffer) == s.delivered + (Received(r) + Flat(c.buffer));
    }
  }

  lemma ChunkKeepsBytes(c: Core, chunk: Chunk)
    requires Consistent(c)
    ensures
      var (c', pc) := FeedChunkStep(c, chunk);
      && Consistent(c') && c'.closed == c.closed
      && Flat(c'.buffer) == if c.closed then Flat(c.buffer) else Flat(c.buffer) + chunk
  {
    FlatPush(c.buffer, chunk);
  }

  lemma PushKeepsBytes(s: State, chunk: Chunk)
    requires Bytes(s) && s.feed == Pulling
    ensures Bytes(Step(s, SourceYields(chunk)))
  {
    hide Flat, FeedChunkStep;
    ChunkKeepsBytes(s.core, chunk);
    FlatPush(s.pushed, chunk);
    FlatPush(s.yielded, chunk);
    assert s.delivered + (Flat(s.core.buffer) + chunk) == s.delivered + Flat(s.core.buffer) + chunk;
  }

  lemma ReadEventKeepsBytes(s: State, len: nat)
    requires Bytes(s)
    ensures Bytes(Step(s, Read(len)))
  {
    ReadKeepsBytes(s.core, len);
    hide Flat, ReadStep;
    var (c, r) := ReadStep(s.core, len);
    assert s.delivered + Received(r) + Flat(c.buffer) == s.delivered + (Received(r) + Flat(c.buffer));
  }

  lemma StepKeepsBytes(s: State, e: Event, s': State)
    requires Bytes(s) && Next(s, e, s')
    ensures Bytes(s')
  {
    hide Flat, ReadStep, FeedChunkStep, AfterAttempt;
    match e
    case SourceYields(chunk) => PushKeepsBytes(s, chunk);
    case Read(len) => ReadEventKeepsBytes(s, len);
    case BlockingRead(id, len) => AttemptKeepsBytes(s, id, len);
    case ReaderWakes(id) => AttemptKeepsBytes(s, id, s.readers[id].len);
    case _ =>
  }

  /** The edge rule of the wake pattern: whatever makes the stream ready begins a new epoch. */
  lemma ReadinessSignals(s: State, e: Event, s': State)
    requires Next(s, e, s')
    ensures s.core.wakeEpoch <= s'.core.wakeEpoch
    ensures Ready(s'.core) && !Ready(s.core) ==> s.core.wakeEpoch < s'.core.wakeEpoch
  {
  }

  lemma StepKeepsParked(s: State, e: Event, s': State)
    requires Parked(s) && Next(s, e, s')
    ensures Parked(s')
  {
    ReadinessSignals(s, e, s');
  }

  lemma StepKeepsFeedParked(s: State, e: Event, s': State)
    requires Invariant(s) && Next(s, e, s')
    ensures FeedParked(s')
  {
  }

  lemma StepKeepsBudget(s: State, e: Event, s': State)
    requires Invariant(s) && Next(s, e, s')
    ensures Source(s') && Budget(s') && s'.core.highWater == s.core.highWater
  {
    hide Flat, Bytes, Parked, FeedParked;
  }

  lemma StartIsFine(highWater: int)
    ensures Invariant(Start(highWater)) && Start(highWater).core.highWater == highWater
  {}

  /** Every state of every run satisfies the invariant. */
  lemma {:induction false} RunKeepsInvariant(highWater: int, events: seq<Event>, states: seq<State>, i: nat)
    requires Run(highWater, events, states) && i < |states|
    ensures Invariant(states[i]) && states[i].core.highWater == highWater
  {
    hide Bytes, Source, Budget, Parked, FeedParked, Next;
    if i == 0 {
      StartIsFine(highWater);
    } else {
      RunKeepsInvariant(highWater, events, states, i - 1);
      assert StepAt(events, states, i - 1);
      StepKeepsBytes(states[i - 1], events[i - 1], states[i]);
      StepKeepsParked(states[i - 1], events[i - 1], states[i]);
      StepKeepsFeedParked(states[i - 1], events[i - 1], states[i]);
      StepKeepsBudget(states[i - 1], events[i - 1], states[i]);
    }
  }

  /** Exact delivery: at every point of every run the bytes read so far followed by the buffered
    * ones are the pushed ones, `#buffered` counts them, and the buffer respects the high-water mark. */
  lemma DeliveryIsExact(highWater: int, events: seq<Event>, states: seq<State>, i: nat)
    requires Run(highWater, events, states) && i < |states|
    ensures
      var s := states[i];
      && s.delivered + Flat(s.core.buffer) == Flat(s.pushed)
      && s.core.buffered == |Flat(s.core.buffer)|
      && (!s.core.closed ==> Flat(s.pushed) == Flat(s.yielded))
      && (highWater >= 1 ==> s.core.buffered < highWater + LastLength(s.pushed))
  {
    RunKeepsInvariant(highWater, events, states, i);
  }

  /** What any read of an undisposed stream reports, in terms of what the source has yielded: the
    * next bytes while there are any; then `closed` exactly when the source ended, or threw
    * `undefined`, which the code reads as "no failure"; then the failure exactly when it threw
    * anything else. */
  lemma ReadReportsTheSource(highWater: int, events: seq<Event>, states: seq<State>, i: nat, len: nat)
    requires Run(highWater, events, states) && i < |states| && !states[i].core.closed
    ensures Consistent(states[i].core)
    ensures
      var s := states[i];
      var all, r := Flat(s.yielded), ReadStep(s.core, len).1;
      && s.delivered <= all
      && (r.Ok? ==> r.value == all[|s.delivered|..][..if len < |all| - |s.delivered| then len else |all| - |s.delivered|])
      && (r == Err(Closed) <==> s.delivered == all && (s.source == Ended || s.source == Threw(Undefined)))
      && (forall debug :: r == Err(LastOperationFailed(debug)) <==>
            s.delivered == all && s.source.Threw? && Describes(debug, s.source.e))
  {
    RunKeepsInvariant(highWater, events, states, i);
    var s := states[i];
    assert Flat(s.yielded) == s.delivered + Flat(s.core.buffer);
    assert Flat(s.yielded)[|s.delivered|..] == Flat(s.core.buffer);
    if s.core.buffered == 0 {
      assert s.delivered + Flat(s.core.buffer) == s.delivered;
    }
  }

  /** A source that throws `undefined` is read as one that ended. */
  lemma ThrownUndefinedExample(highWater: int, len: nat) returns (events: seq<Event>, states: seq<State>)
    ensures Run(highWater, events, states)
    ensures
      var s := states[|events|];
      s.source == Threw(Undefined) && !s.core.closed && Consistent(s.core) && ReadStep(s.core, len).1 == Err(Closed)
  {
    events := [SourceThrows(Undefined)];
    var s0 := Start(highWater);
    assert Consistent(s0.core) && Enabled(s0, events[0]);
    states := [s0, Step(s0, events[0])];
    assert StepAt(events, states, 0);
  }

  /** There is nothing to tell a reader: the stream is open, its source goes on, and all it yielded
    * has been read. */
  ghost predicate Idle(s: State) {
    !s.core.closed && s.source == Streaming && s.delivered == Flat(s.yielded)
  }

  lemma IdleIsUnready(s: State)
    requires Invariant(s)
    ensures Ready(s.core) <==> !Idle(s)
  {
    assert |Flat(s.pushed)| == |s.delivered| + |Flat(s.core.buffer)|;
    if s.core.buffered == 0 { assert s.delivered + Flat(s.core.buffer) == s.delivered; }
  }

  /** A blocking read, and a pollable, waits exactly on an idle stream, and on the current epoch.  A
    * read that settles answers as `read` does, and with bytes settles with at least one, unless it
    * asked for none. */
  lemma BlockingReadIsNeverEmpty(highWater: int, events: seq<Event>, states: seq<State>, i: nat, id: nat, len: nat)
    requires Run(highWater, events, states) && i < |states|
    ensures Consistent(states[i].core)
    ensures
      var s := states[i];
      var (c', a) := BlockingReadStep(s.core, len);
      && (if Idle(s) then a == ParkOn(s.core.wakeEpoch) && c' == s.core
          else a == Settled(ReadStep(s.core, len).1) && c' == ReadStep(s.core, len).0)
      && (id in AfterBlock(s, id).blockers <==> Idle(s))
      && (a.Settled? && a.result.Ok? && len > 0 ==> 0 < |a.result.value| <= len)
  {
    RunKeepsInvariant(highWater, events, states, i);
    IdleIsUnready(states[i]);
  }

  /** A stream is closed exactly once it was disposed of. */
  lemma {:induction false} ClosedByDispose(highWater: int, events: seq<Event>, states: seq<State>, i: nat)
    requires Run(highWater, events, states) && i < |states|
    ensures states[i].core.closed <==> exists k :: 0 <= k < i && events[k] == Dispose
  {
    if i > 0 {
      ClosedByDispose(highWater, events, states, i - 1);
      assert StepAt(events, states, i - 1);
      OnlyDisposeCloses(states[i - 1], events[i - 1], states[i]);
    }
  }

  lemma OnlyDisposeCloses(s: State, e: Event, s': State)
    requires Next(s, e, s')
    ensures s'.core.closed <==> s.core.closed || e == Dispose
    ensures s.core.closed ==>
      s'.delivered == s.delivered && s'.pushed == s.pushed && s'.core.buffer == s.core.buffer
  {}

  /** After dispose every read answers `closed`, at once; the next chunk of the source ends the feed,
    * and a parked feed that wakes goes on to it; nothing is buffered or delivered any more. */
  lemma {:induction false} AfterDispose(highWater: int, events: seq<Event>, states: seq<State>, i: nat, k: nat, len: nat, chunk: Chunk)
    requires Run(highWater, events, states) && i < k < |states| && events[i] == Dispose
    ensures Consistent(states[k].core)
    ensures
      var s := states[k];
      && ReadStep(s.core, len) == (s.core, Err(Closed))
      && BlockingReadStep(s.core, len) == (s.core, Settled(Err(Closed)))
      && FeedChunkStep(s.core, chunk) == (s.core, Done) && FeedRecheck(s.core) == (s.core, Pulling)
      && s.delivered == states[i].delivered && s.pushed == states[i].pushed
      && s.core.buffer == states[i].core.buffer
  {
    ClosedByDispose(highWater, events, states, k);
    RunKeepsInvariant(highWater, events, states, k);
    if k == i + 1 {
      assert StepAt(events, states, i);
    } else {
      AfterDispose(highWater, events, states, i, k - 1, len, chunk);
      ClosedByDispose(highWater, events, states, k - 1);
      assert StepAt(events, states, k - 1);
      OnlyDisposeCloses(states[k - 1], events[k - 1], states[k]);
    }
  }

  /** No lost wakeup: a waiter that nothing will wake yet waits on an idle stream. */
  lemma NoLostWakeup(highWater: int, events: seq<Event>, states: seq<State>, i: nat)
    requires Run(highWater, events, states) && i < |states|
    ensures
      var s := states[i];
      && (forall id :: id in s.readers && !Enabled(s, ReaderWakes(id)) ==> Idle(s))
      && (forall id :: id in s.blockers && !Enabled(s, BlockerWakes(id)) ==> Idle(s))
      && (s.feed.ParkedOn? && !Enabled(s, FeedWakes) ==> s.core.buffered >= highWater && !s.core.closed)
  {
    RunKeepsInvariant(highWater, events, states, i);
    IdleIsUnready(states[i]);
  }

  /** With a high-water mark of at least 1 a waiter never waits on a stream whose feed is stuck:
    * the feed is awaiting the source, or it is about to resume. */
  lemma NoDeadlock(highWater: int, events: seq<Event>, states: seq<State>, i: nat, id: nat)
    requires Run(highWater, events, states) && i < |states| && highWater >= 1
    requires
      var s := states[i];
      (id in s.readers && !Enabled(s, ReaderWakes(id))) || (id in s.blockers && !Enabled(s, BlockerWakes(id)))
    ensures states[i].feed == Pulling || Enabled(states[i], FeedWakes)
  {
    RunKeepsInvariant(highWater, events, states, i);
  }

  /** Reader `id` waits for the feed, and the feed waits for a reader. */
  ghost predicate Deadlocked(s: State, id: nat) {
    && s.source == Streaming && id in s.readers && !Enabled(s, ReaderWakes(id))
    && s.feed.ParkedOn? && !Enabled(s, FeedWakes)
  }

  /** The mark must be positive: at 0 or below, one chunk and two reads leave the reader and the
    * feed parked on each other. */
  lemma ZeroHighWaterDeadlocks(highWater: int) returns (events: seq<Event>, states: seq<State>)
    requires highWater <= 0
    ensures Run(highWater, events, states)
    ensures Deadlocked(states[|events|], 0)
  {
    events := [SourceYields([7]), Event.Read(1), BlockingRead(0, 1)];
    var s0 := Start(highWater);
    assert Flat([[7 as bv8]]) == [7] + Flat([]);
    assert Consistent(s0.core) && Enabled(s0, events[0]);
    var s1 := Step(s0, events[0]);
    assert s1.core.buffer == [[7]];
    assert Consistent(s1.core);
    ReadKeepsBytes(s1.core, 1);
    var s2 := Step(s1, events[1]);
    var s3 := Step(s2, events[2]);
    states := [s0, s1, s2, s3];
  }
}
