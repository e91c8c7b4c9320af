# Host-side kernels, modelled and proved

Polyengine runs WebAssembly components in JavaScript hosts. Around the engine itself stand pieces of
host code that are short, stateful and easy to get subtly wrong: byte streams that park and wake,
codecs written by hand for shells that lack them, a path guard, an envelope for structured clone, a
digest that two languages must compute alike. This project models those pieces in Dafny and proves
what they promise, for all inputs and all runs.

How the pieces are modelled:

- **Streams, polling and timers** (`FedInput`, `SinkOutput`, `Polling`, `TimerPollable`,
  `TimeoutRace`). The code between two await points runs without interruption, so each such stretch
  is one method of a class, proved equal to a transition on a value. A wake promise is the epoch in
  which it was made. `Run` interleaves the transitions of all parties in every order the event loop
  allows, and the theorems are about every state that a run reaches.
- **Codecs and hash** (`CodeUnits`, `Utf8`, `Utf16le`, `Base64`, `Sha256`, `ShaConstants`). Loops
  over bytes and 32-bit words with the truncations of JavaScript, proved against RFC 3629, RFC 4648
  and FIPS 180-4 written out as independent functions and grammars, and against each other as round
  trips.
- **Path containment** (`PathText`, `FileTree`, `PathGuard`). The file system is a finite map from
  canonical paths to directories, files and links; `Resolve` is pathname resolution as in section
  4.13 of the base definitions of POSIX.1-2017. The string-based walk is proved to follow it.
- **Structured-clone envelope** (`Cloneable`). A heap of objects that may be shared and cyclic, the
  encoder as a class with its `seen` set, the decoder, and the round trip.
- **World digest** (`StableSort`, `CanonicalJson`, `TypeTable`, `TypeShapes`, `TypeDigest`,
  `TypeMeaning`, `WorldDigest`, `DigestMeaning`, `DigestFields`, `DigestInvariance`, `DigestAliases`,
  `DigestOrder`). The type table is a map whose acyclicity a ghost rank witnesses. What a document
  means is given by shapes that know no ids, and these are read against the declarations field by
  field; the document is shown to determine them and to depend on nothing else.
- **Section scanner and records** (`TagsScan`, `TagsRecords`), **sharded runs** (`ShardedRun`),
  **versions** (`Semver`, `SemverText`) and **value mapping** (`Doubles`, `ValueMapping`).

Where a promise turned out not to hold on all inputs, the model keeps the code and a theorem says
exactly when the promise holds:

- A stream whose high-water mark is 0 or below deadlocks (`FedInput.ZeroHighWaterDeadlocks`), and a
  source or sink that throws `undefined` is taken for a clean one (`FedInput.ReadReportsTheSource`,
  `FedInput.ThrownUndefinedExample`, `SinkOutput.FlushMeansStored`, `SinkOutput.DroppedExample`).
- The path guard lets a create land outside the root exactly through a dangling link to an absolute
  target with an empty directory part (`PathGuard.GuardLanding`, `PathGuard.BareTargetExample`).
- The envelope gives a peer-trap or stream-producer error without a cause of its own the own cause
  `undefined`, loses progress that is not a number and a `__proto__` key, and cannot be decoded when
  the cause of such an error has a property `toString` (`Cloneable.RoundTrip`, with
  `Cloneable.NoCauseExample`, `Cloneable.ProgressExample`, `Cloneable.ProtoExample` and
  `Cloneable.PrintExample`).
- The digest ignores aliases in front of value types, as its documentation says of table order, but
  where a function takes a handle to an alias of a resource no document is written
  (`DigestAliases.InsertedAliases`, `DigestAliases.AliasedHandleExample`).
- Version comparison is not reflexive once a numeric identifier overflows a double
  (`Semver.ReflexiveIff`, `Semver.OverflowExample`), and merges numbers that round to one
  (`SemverText.NumericIdsAgreeIff`, `SemverText.CompareIsPrecedence`, `SemverText.MergedExample`).
- The base64 decoder accepts more than canonical strings (`Base64.BtoaOfAtob`, `Base64.SpaceExample`),
  and the component walk of the guard treats a file followed by `.` or `..` as present
  (`PathGuard.WalkAnswersResolution`, `PathGuard.FileThenParentExample`).

`dafny verify dfyconfig.toml` checks the whole project.

## Model

| member | source | states |
|---|---|---|
| FedInput.FedInputStream.constructor | wasi/src/io.ts:386-393 | a new stream is empty, open and in its first wake epoch |
| FedInput.FedInputStream.FeedChunk | wasi/src/io.ts:403-411 | one pulled chunk: ignored after dispose or when empty, otherwise appended and counted, waiters woken, and the feed parks exactly when the buffer is at the high-water mark and the stream open |
| FedInput.FedInputStream.Backpressure | wasi/src/io.ts:409-411 | the re-check of a resumed feed: it parks again or goes on pulling |
| FedInput.FedInputStream.FeedEnd | wasi/src/io.ts:413-418 | a source that ends sets EOF, leaves the buffer alone and wakes waiters |
| FedInput.FedInputStream.FeedThrow | wasi/src/io.ts:414-418 | a source that throws also latches what it threw |
| FedInput.FedInputStream.CopyOut | wasi/src/io.ts:422-431 | the copy loop over chunk boundaries fills a new array with exactly the first n buffered bytes and leaves exactly the rest buffered |
| FedInput.FedInputStream.Take | wasi/src/io.ts:421-435 | returns min(len, buffered) bytes from the front of the buffered bytes, keeps the count exact, and resumes the feed when the buffer falls below the mark |
| FedInput.FedInputStream.Read | wasi/src/io.ts:437-456 | the order of the answers: closed after dispose, bytes while there are any, then the failure, then closed at EOF, and an empty list on an open empty stream |
| FedInput.FedInputStream.BlockingRead | wasi/src/io.ts:460-468 | answers at once exactly when there are bytes, EOF or a dispose, and otherwise parks on the current wake epoch |
| FedInput.FedInputStream.Dispose | wasi/src/io.ts:488-492 | closes, lets a parked feed go, wakes every waiter |
| FedInput.RunKeepsInvariant | wasi/src/io.ts:386-492 | every state of every interleaving of source, feed, readers, pollables and dispose keeps delivery, budget, source and parking invariants |
| FedInput.DeliveryIsExact | wasi/src/io.ts:386-468 | at every point of every run the bytes returned so far followed by the buffered ones are the bytes pushed, the counter is their exact number, and with a mark of at least 1 the buffer stays below the mark plus the last chunk |
| FedInput.ReadReportsTheSource | wasi/src/io.ts:437-456 | an undisposed reader gets the next bytes of the source while there are any; then closed exactly when the source ended cleanly or threw undefined, and last-operation-failed with its message exactly when it threw anything else |
| FedInput.ThrownUndefinedExample | wasi/src/io.ts:413-418 | a run in which the source throws undefined and a read then answers closed |
| FedInput.BlockingReadIsNeverEmpty | wasi/src/io.ts:460-468 | in every reachable state a blocking read, like a pollable, waits exactly while the stream is open, its source goes on and all it yielded has been read; otherwise it answers as read does, and a positive length never gets an empty list |
| FedInput.ClosedByDispose | wasi/src/io.ts:488-492 | the stream is closed exactly once it was disposed of |
| FedInput.AfterDispose | wasi/src/io.ts:403-492 | after dispose every read answers closed at once, the next chunk ends the feed, a parked feed that wakes goes on to it, and nothing is buffered or delivered any more |
| FedInput.ReadinessSignals | wasi/src/io.ts:395-399 | whatever makes the stream ready begins a new wake epoch |
| FedInput.NoLostWakeup | wasi/src/io.ts:395-435 | a reader or pollable that nothing will wake yet waits on an open stream whose source goes on and has been read to the end, and a parked feed with no resume under way has a full buffer and an open stream |
| FedInput.NoDeadlock | wasi/src/io.ts:401-419 | with a mark of at least 1 a waiter never waits while the feed is stuck |
| FedInput.ZeroHighWaterDeadlocks | wasi/src/io.ts:409-433 | the mark must be positive: for any mark of 0 or below, a run that leaves a reader and the feed parked on each other for ever |
| SinkOutput.SinkOutputStream.constructor | wasi/src/io.ts:519-523 | a new stream has an empty queue and no failure |
| SinkOutput.SinkOutputStream.CheckWrite | wasi/src/io.ts:549-552 | reports the remaining permit, never negative, or the latched failure |
| SinkOutput.SinkOutputStream.Write | wasi/src/io.ts:554-574 | refuses after close or failure, traps past the permit, and otherwise counts the bytes and chains one job behind all earlier ones |
| SinkOutput.SinkOutputStream.JobStart | wasi/src/io.ts:564-568 | a job whose turn has come calls the sink, or is skipped and discharged when a failure is latched |
| SinkOutput.SinkOutputStream.SinkReturned | wasi/src/io.ts:564-573 | a sink call that returns discharges its bytes and wakes waiters |
| SinkOutput.SinkOutputStream.SinkThrew | wasi/src/io.ts:567-573 | a sink call that throws latches the failure, discharges its bytes and wakes waiters |
| SinkOutput.SinkOutputStream.BlockingFlush | wasi/src/io.ts:582-591 | completes at once on an empty queue, reports a latched failure, and otherwise parks on the current epoch |
| SinkOutput.SinkOutputStream.FlushLoop | wasi/src/io.ts:585-590 | a woken flush parks again while bytes are queued and no failure is latched, and then reports the failure or completes |
| SinkOutput.RunKeepsInvariant | wasi/src/io.ts:519-607 | every state of every interleaving keeps the pump serial, the books balanced and the waiters well parked |
| SinkOutput.BudgetIsExact | wasi/src/io.ts:549-574 | at every point the queued count is the size of the accepted chunks not yet discharged and lies between 0 and the mark; a write is accepted exactly when it fits the permit reported |
| SinkOutput.SinkCallsAreSerial | wasi/src/io.ts:564-574 | sink calls never overlap and are a prefix of the accepted chunks in write order |
| SinkOutput.NoCallAfterFailure | wasi/src/io.ts:566-568 | once a failure is latched it stays, and the sink is never called again |
| SinkOutput.FlushMeansStored | wasi/src/io.ts:582-591 | a flush that completes leaves nothing queued and no failure, and every accepted byte then reached the sink if and only if none was dropped by a sink that threw undefined |
| SinkOutput.FlushAnswers | wasi/src/io.ts:533-591 | in every reachable state a flush, first attempt or woken, that does not park completes if and only if the stream is open without failure, fails with closed if and only if it is closed, and otherwise with the text of what the sink threw |
| SinkOutput.WriteAnswers | wasi/src/io.ts:533-574 | in every reachable state a write is made if it fits the room left on an open stream without failure, traps if it does not fit, and is refused with closed or the text of the failure otherwise; the permit is the room left |
| SinkOutput.ClosedAndFailed | wasi/src/io.ts:564-573 | the stream is closed exactly if it was disposed of, and its failure is the first thing other than undefined that the sink threw |
| SinkOutput.PollableWaits | wasi/src/io.ts:601-607 | a pollable waits exactly while the stream is open, without failure and without room |
| SinkOutput.DroppedExample | wasi/src/io.ts:566-573 | a run in which the sink throws undefined on a byte, stores nothing, and the flush completes |
| SinkOutput.ReadinessSignals | wasi/src/io.ts:525-529 | whatever makes the stream writable begins a new wake epoch |
| SinkOutput.NoLostWakeup | wasi/src/io.ts:525-607 | a pollable that nothing will wake yet waits on an open stream without failure and without room, a flush on queued bytes, and a waiting flush always has a job being served or able to start |
| Polling.ReadyNow | wasi/src/io.ts:197-203 | the scan collects the indices of the ready pollables in order |
| Polling.EdgeRule | wasi/src/io.ts:395-399 | every stream that a poll may watch, and every foreign pollable that keeps the wake rule, begins a new epoch when it becomes ready |
| Polling.TimerRule | wasi/src/io.ts:136-147 | a timer, which the clock makes ready without a new promise, never takes the end of a sleep back |
| Polling.WaitPromises | wasi/src/io.ts:204-208 | the calls of waitPromise answer the current promises and leave every polled timer with one sleep in flight |
| Polling.RunKeepsInvariant | wasi/src/io.ts:188-214 | over every interleaving of streams, timers, foreign pollables and polls: a call in flight holds promises that its pollables made, and those of streams belong to epochs in which the stream was not ready |
| Polling.NoLostWakeup | wasi/src/io.ts:136-212 | while none of the promises a poll call races has settled, no stream it polls is ready, and every timer it polls has the very sleep that is raced in flight, asked to end by the deadline |
| Polling.PollReturnsTheReady | wasi/src/io.ts:191-213 | poll traps exactly on an empty list, parks exactly while every pollable has nothing to report (no bytes and no end, no room, time left), and otherwise returns exactly the indices of the others, ascending and not empty |
| TimerPollable.Timer.Wait | wasi/src/io.ts:138-145 | concurrent waiters share the sleep in flight; only when there is none is a new one armed, for the remainder clamped to 0 and 2^31-1 ms |
| TimerPollable.Timer.SleepFired | wasi/src/io.ts:142-144 | a sleep that ends disarms itself |
| TimerPollable.Timer.Block | wasi/src/io.ts:157-162 | returns exactly when the clock has reached the deadline and otherwise waits on the sleep in flight |
| TimerPollable.WaitingIsSound | wasi/src/io.ts:136-162 | in every run a call completes only once the clock has reached the deadline; all calls that nothing will wake yet wait on the one sleep in flight; every sleep asks for what is left, or for 2^31-1 ms of it |
| TimerPollable.SleepCountBound | wasi/src/io.ts:136-147 | if sleeps last at least their delay, their number is at most the remaining time divided by the ceiling, rounded up |
| TimeoutRace.Race.constructor | wasi/src/http.ts:987-1004 | a race begins unsettled with its first timer armed |
| TimeoutRace.Race.TimerFired | wasi/src/http.ts:993-1002 | a chunk of the timer re-arms for the rest or, when nothing is left, settles the race as timed out |
| TimeoutRace.Race.OperationResolved | wasi/src/http.ts:1006-1014 | a value settles an open race and clears its timer, or is handed on as late |
| TimeoutRace.Race.OperationRejected | wasi/src/http.ts:1015-1020 | a rejection settles an open race and is dropped after a timeout |
| TimeoutRace.RunKeepsInvariant | wasi/src/http.ts:987-1022 | what every step of the race keeps |
| TimeoutRace.RaceIsFair | wasi/src/http.ts:981-1023 | over every order of timer and operation: at most one settlement, to the outcome of the operation or the timeout; one timer pending until then, for what is left or 2^31-1 ms of it, and none after; fired delays at most 2^31-1 that add up to exactly the requested time when the timeout wins; a value is late exactly when it came after that |
| Utf8.Utf8Encode | tools/shell/polyfill.ts:15-53 | the encoder loop writes each code point as section 3 of RFC 3629 does, an unpaired surrogate as U+FFFD |
| Utf8.Utf8Decode | tools/shell/polyfill.ts:55-117 | the decoder loop computes the decoding function that the theorems are about, in both modes |
| Utf8.ReadScalar | tools/shell/polyfill.ts:68-113 | lead byte, continuation bytes and range test of one code point |
| Utf8.FirstScalarIsRfc | tools/shell/polyfill.ts:65-113 | the decoder accepts a character exactly where the grammar of section 4 of RFC 3629 has one, with the value whose encoding those octets are |
| Utf8.ReadsBack | tools/shell/polyfill.ts:15-117 | the octets of every scalar value read back as that value, whatever follows |
| Utf8.FatalDecodeIsRfc3629 | tools/shell/polyfill.ts:55-117 | fatal decoding succeeds exactly on the octet strings of section 4 of RFC 3629, re-encoding its result gives the octets back, and both modes agree there |
| Utf8.DecodeOfEncode | tools/shell/polyfill.ts:15-117 | decoding the encoding of any code-unit string gives it with each unpaired surrogate replaced by U+FFFD, in both modes |
| Utf8.LenientDecodeIsTotal | tools/shell/polyfill.ts:55-117 | non-fatal decoding never throws and yields no unpaired surrogate |
| Utf8.LenientReplaces | tools/shell/polyfill.ts:55-117 | of any bytes non-fatal decoding reads a character of the grammar at the front as the text that encodes to it, replaces any other first byte by U+FFFD, and goes on behind |
| Utf16le.Utf16leDecode | tools/shell/polyfill.ts:119-150 | fatal mode accepts exactly whole pairs of bytes without unpaired surrogates; what is returned is the code units with unpaired surrogates repaired, and non-fatal mode always returns |
| Utf16le.UnitsOfLittleEndian | tools/shell/polyfill.ts:119-150 | text printed low byte first is read back |
| Utf16le.LowByteFirst | tools/shell/polyfill.ts:119-150 | a pair of bytes is the first plus 256 times the second |
| Utf16le.RepairedIsWellFormed | tools/shell/polyfill.ts:119-150 | the output of either mode has no unpaired surrogate |
| Base64.Btoa | tools/shell/polyfill.ts:325-343 | throws exactly on a unit above 255 and otherwise computes the encoding |
| Base64.Atob | tools/shell/polyfill.ts:345-365 | computes the decoding, with an accumulator that is never masked and wraps at 32 bits |
| Base64.EncodeSpells | tools/shell/polyfill.ts:325-343 | the sextets of an encoding spell the bytes, group by group |
| Base64.AlphabetTable | tools/shell/polyfill.ts:322-323 | the characters are those of Table 1 of RFC 4648 |
| Base64.PaddingOfQuads | tools/shell/polyfill.ts:325-343 | one byte is written with two = behind it, two with one, three with none |
| Base64.DecodeReadsSpelling | tools/shell/polyfill.ts:345-365 | decoding gives the bytes that the sextets spell, whatever is left over in the wrapped accumulator |
| Base64.AtobAcceptsIff | tools/shell/polyfill.ts:345-365 | the decoder accepts exactly the texts that without white space and trailing = consist of alphabet characters, not one more than a multiple of four |
| Base64.EncodeOfSpelled | tools/shell/polyfill.ts:325-365 | encoding the bytes spelled gives the sextets back exactly when their unused bits are zero |
| Base64.AtobOfBtoa | tools/shell/polyfill.ts:325-365 | atob inverts btoa on every string of units at most 255, both padding cases included |
| Base64.BtoaOfAtob | tools/shell/polyfill.ts:325-365 | btoa inverts atob exactly on the canonical strings of RFC 4648: alphabet, full padding, zero unused bits |
| Base64.SpaceExample | tools/shell/polyfill.ts:325-365 | a space is accepted, decodes to nothing, and does not come back |
| Sha256.JsRound | tools/shell/polyfill.ts:257-272 | one round on signed 32-bit words with truncation is the round of section 6.2.2 of FIPS 180-4 modulo 2^32 |
| Sha256.LoadWords | tools/shell/polyfill.ts:250-250 | the first sixteen schedule words are the big-endian words of the block |
| Sha256.ExtendSchedule | tools/shell/polyfill.ts:251-255 | the remaining words follow the recurrence of the message schedule |
| Sha256.JsCompress | tools/shell/polyfill.ts:250-280 | schedule, 64 rounds and the final additions are one application of the compression function |
| Sha256.PadMessage | tools/shell/polyfill.ts:238-245 | the padded array is the padding of section 5.1.1, and its allocation fails exactly from length 2^31 - 72 on |
| Sha256.PaddedIsShortest | tools/shell/polyfill.ts:238-245 | no smaller number of zero bytes completes a block |
| Sha256.PaddedSizeExact | tools/shell/polyfill.ts:240-241 | the size computed with 32-bit masks is right below 2^31 - 72 and too small from there on |
| Sha256.BigEndianRead | tools/shell/polyfill.ts:239-286 | four bytes written for a word read back as the word |
| ShaConstants.RoundConstants | tools/shell/polyfill.ts:222-234 | the round constants are the first 32 bits of the fractional parts of the cube roots of the first 64 primes |
| ShaConstants.InitialHash | tools/shell/polyfill.ts:235-236 | the initial hash value is that of the square roots of the first eight primes |
| Sha256.Sha256 | tools/shell/polyfill.ts:221-286 | the result is the digest of FIPS 180-4 for every message with length + 72 < 2^31, and an error for every other |
| PathText.InsideIsPrefix | wasi/src/filesystem_node.ts:250-254 | the string test accepts a canonical path exactly when it is the root or below it component by component |
| PathGuard.RequireInside | wasi/src/filesystem_node.ts:251-254 | refuses with EPERM exactly what the string test rejects |
| PathGuard.WalkReal | wasi/src/filesystem_node.ts:283-298 | the loop computes the walk component by component, each step canonical and checked against the root |
| PathGuard.WalkIsResolution | wasi/src/filesystem_node.ts:261-298 | where the components resolve physically, the walk answers that resolution if every step stays in the root and EPERM otherwise |
| PathGuard.WalkAnswersResolution | wasi/src/filesystem_node.ts:261-298 | what the walk answers is what the path denotes if and only if every proper prefix that denotes something denotes a directory |
| PathGuard.WalkOrNotDirectory | wasi/src/filesystem_node.ts:261-298 | where the walk answers something else, resolution fails with ENOTDIR |
| PathGuard.FileThenParentExample | wasi/src/filesystem_node.ts:283-298 | a tree on which the walk of f/.. answers although f is a file |
| PathGuard.ChaseFinal | wasi/src/filesystem_node.ts:306-360 | the loop follows a chain of links for at most 40 turns |
| PathGuard.Guard | wasi/src/filesystem_node.ts:368-384 | base check, parent check and chase in the order of the code |
| PathGuard.GuardAnswer | wasi/src/filesystem_node.ts:234-235 | what guard hands on spells the base followed by the segments |
| PathGuard.ChaseCreates | wasi/src/filesystem_node.ts:306-360 | of a name that denotes nothing the chase returns exactly if creating it stays inside: the name is absent, or a link whose target can be walked without leaving the root to such a name, within the turns allowed |
| PathGuard.GuardReturnsIff | wasi/src/filesystem_node.ts:368-384 | guard returns if and only if the parent (or with no segments the base) denotes a place inside the root and with follow the whole path denotes one or nothing whose creation would leave it; it throws EPERM for what is outside and passes other errors on |
| PathGuard.GuardContains | wasi/src/filesystem_node.ts:362-384 | if guard returns, the base or the real parent is in the root, and with follow so is whatever the whole path denotes |
| PathGuard.GuardLanding | wasi/src/filesystem_node.ts:300-384 | if guard returns with follow and a create through the path would make a file, that happens in the root if and only if the chain does not end at an absolute target with an empty directory part |
| PathGuard.RelativeTargetsStayBelow | wasi/src/filesystem_node.ts:339-351 | with relative targets only the exception cannot occur |
| PathGuard.BareTargetExample | wasi/src/filesystem_node.ts:346-351 | a tree on which guard returns and a create lands outside the root |
| FileTree.RealPathBelow | wasi/src/filesystem_node.ts:294-294 | handing realpathSync a canonical directory and one component resolves that component physically |
| FileTree.DenotesAppend | wasi/src/filesystem_node.ts:261-282 | a path denotes what its tail denotes from where its head leads |
| Cloneable.Encoder.EncodeValue | protocol/src/cloneable.ts:227-365 | the encoder leaves the shared set of objects on the path as it found it, on return and on throw, and terminates |
| Cloneable.ClassifiesSorts | protocol/src/cloneable.ts:284-356 | the tests of the encoder find what an object is by brands and shape: an error brand, the first listed, ahead of all else, then error contexts and exits, then handles, then shape |
| Cloneable.EncodesIff | protocol/src/cloneable.ts:253-356 | a value is encoded exactly if no path into it ends at a function, a symbol, a handle, a tag carrier, an object of a foreign prototype or an object met before, and what is thrown is the reason at the end of one such path |
| Cloneable.EncodedPathsAreSimple | protocol/src/cloneable.ts:253-356 | while an encoding succeeds no walked path revisits an object |
| Cloneable.CycleExactly | protocol/src/cloneable.ts:253-356 | with nothing else to refuse, a cycle is reported exactly when some path into the value, through the parts that brands and shape give it, revisits an object |
| Cloneable.SharedEncodeAlike | protocol/src/cloneable.ts:253-356 | a shared object encodes alike on every path that reaches it |
| Cloneable.EnvelopeReads | protocol/src/cloneable.ts:427-586 | every field of an envelope is found under its own name in the object that carries the tag |
| Cloneable.TagDecides | protocol/src/cloneable.ts:479-586 | whatever tagged data is decoded, an unknown tag is refused and a known one makes the kind of value it stands for, with the message, stack and name that the data holds as texts |
| Cloneable.RoundTrip | protocol/src/cloneable.ts:227-586 | what encoding gives decodes to what brands and shape show of the value (brand, message, payload, progress, ok, code, cause to any depth, arrays and objects part by part) if and only if every object inside survives: the two peer brands have a cause of their own that prints, progress is a number, no key is __proto__ |
| Cloneable.RefusalIsNeeded | protocol/src/cloneable.ts:338-346 | without the refusal of tag carriers: a plain object written out key by key comes back as a plain object exactly when it does not carry the tag |
| Cloneable.CarrierExample | protocol/src/cloneable.ts:338-346 | an object that spells a trap envelope is refused, and would be decoded to a trap |
| Cloneable.NoCauseExample | protocol/src/cloneable.ts:518-531 | a peer trap without a cause of its own comes back with the own cause undefined |
| Cloneable.ProgressExample | protocol/src/cloneable.ts:524-527 | progress that is not a number is lost |
| Cloneable.ProtoExample | protocol/src/cloneable.ts:347-352 | a property named __proto__ is lost |
| Cloneable.PrintExample | protocol/src/cloneable.ts:532-538 | a producer error whose cause has a property toString is encoded, and decoding it throws |
| StableSort.SortIsStable | crates/bindgen/src/digest.rs:491-505 | sorting by name orders the names and keeps items of one name in their order |
| StableSort.LeqIsLexical | crates/bindgen/src/digest.rs:491-505 | the order of names is that of a dictionary |
| StableSort.OrderedUnique | crates/bindgen/src/digest.rs:491-505 | there is only one result a stable sort can have |
| StableSort.SortedAlikeIff | crates/bindgen/src/digest.rs:491-505 | two lists sort alike exactly when they agree name by name |
| StableSort.DistinctSortedAlikeIff | crates/bindgen/src/digest.rs:491-505 | a list with distinct names sorts like another exactly when that is a permutation of it |
| CanonicalJson.SortKeysIdempotent | crates/bindgen/src/digest.rs:518-532 | sorting keys twice is sorting them once |
| CanonicalJson.SortKeysErasesOnlyKeyOrder | crates/bindgen/src/digest.rs:507-532 | two documents sort alike exactly when they differ at most in the order of object members, at any depth |
| TypeShapes.CanonTypeIsShape | crates/bindgen/src/digest.rs:346-489 | canon_type writes down the shape of a type, and fails exactly when it has none |
| TypeShapes.EncodeInjective | crates/bindgen/src/digest.rs:346-489 | documents that agree up to key order come from the same shape: nothing in it is lost |
| TypeMeaning.UnfoldsIff | crates/bindgen/src/digest.rs:346-489 | the shape of a type is the one structure that its entries describe, kind by kind: fields, cases and labels in order, aliases followed, a map as a list of pairs, a handle by the name of its resource |
| TypeDigest.DocumentsEqualIffShapesEqual | crates/bindgen/src/digest.rs:346-489 | types of two tables have equal documents exactly when they have the same shape, that is equal structure with aliases followed, resources by name and maps read as lists of pairs |
| TypeDigest.RefusedExactly | crates/bindgen/src/digest.rs:370-489 | canon_type fails exactly on types that lead, through any chain of references, to a bare resource, an unresolved entry or a handle without a resource name |
| TypeDigest.RespellingKeepsShape | crates/bindgen/src/digest.rs:346-489 | renumbering the type table and inserting aliases before value types changes no shape |
| WorldDigest.CollectResourceNames | crates/bindgen/src/digest.rs:175-201 | enters exactly the listed resources of interfaces and of the world, a later listing replacing an earlier, and fails exactly on an interface without name or package |
| WorldDigest.CanonFunc | crates/bindgen/src/digest.rs:304-344 | params and results are the documents of the shapes in order, a constructor without a result returns its resource, parameter names do not occur |
| WorldDigest.CanonInterface | crates/bindgen/src/digest.rs:263-302 | the resources and then the functions of an interface, and no other named types |
| WorldDigest.CanonItems | crates/bindgen/src/digest.rs:203-261 | the items of a world in order, plain named types left out, failing exactly when one of them has no view |
| WorldDigest.Compute | crates/bindgen/src/digest.rs:127-155 | the result is the key-sorted document of what the world shows |
| DigestMeaning.DigestsEqualIff | crates/bindgen/src/digest.rs:127-155 | two worlds have equal canonical documents exactly when they show the same items once these are sorted by name at both levels |
| DigestFields.FunctionViewIff | crates/bindgen/src/digest.rs:304-344 | what a function shows is its parameter types in order, its result or the resource it constructs, and whether its kind is asynchronous |
| DigestFields.QualifiedNameTells | crates/bindgen/src/digest.rs:157-173 | interfaces whose parts are identifiers have one qualified name if and only if namespace, package, name and version are the same |
| DigestFields.NamesTell | crates/bindgen/src/digest.rs:175-201 | a world names exactly the resources that its interfaces or the world itself declare, each after its declaration |
| DigestFields.ResourceNamesTell | crates/bindgen/src/digest.rs:175-201 | resources that go by one name are declared by the same interface, of the same package and version, under the same name |
| DigestFields.DocumentsTell | crates/bindgen/src/digest.rs:127-155 | worlds with one canonical document declare the same, field by field: every import and export has its like in the other, interfaces of the same namespace, package, name and version with the same resources and functions, functions with the same types, result and asynchrony |
| DigestMeaning.NormalForgetsOrder | crates/bindgen/src/digest.rs:491-505 | for distinct names that sorting forgets the order and nothing else |
| DigestInvariance.RespellingKeepsDocument | crates/bindgen/src/digest.rs:10-71 | the document does not depend on type ids, on aliases before value types, on parameter names or on plain named types |
| DigestInvariance.PlainTypesAreSilent | crates/bindgen/src/digest.rs:234-250 | plain named types of a world leave no trace in names or items |
| DigestInvariance.HandleNeedsTheResourceItself | crates/bindgen/src/digest.rs:456-470 | a handle can only be written when the id it holds is listed, and what a world lists are resources, never aliases of them |
| DigestAliases.AliasedHandlesKeepDocument | crates/bindgen/src/digest.rs:127-155 | aliases put in front of the resources of handles keep the world document if no function of the world leads to such a handle; otherwise there is no document |
| DigestAliases.InsertedAliases | crates/bindgen/src/digest.rs:10-22 | renumbering, aliases in front of value types and aliases in front of handle resources together keep the document if and only if no function leads to an aliased handle |
| DigestAliases.AliasedHandleExample | crates/bindgen/src/digest.rs:456-470 | two worlds that differ in an alias: with a function that takes a handle to the resource there is a document, with one that takes a handle to its alias there is none |
| DigestOrder.ReorderingKeepsDocument | crates/bindgen/src/digest.rs:10-22 | permuting imports, exports, and the types and functions of interfaces leaves the document as it is, for distinct names and resources listed under one name |
| TagsScan.LebU32 | ct-runner/src/tags.ts:51-63 | reads seven bits a byte for at most five bytes, drops bits beyond the 32nd, and reports truncation and length |
| TagsScan.LebRoundTrip | ct-runner/src/tags.ts:51-63 | every spelling of a 32-bit number in one to five bytes, padded or not, is read back with the position after it |
| TagsScan.LebAcceptsIff | ct-runner/src/tags.ts:51-63 | a number is read exactly if one of the next five bytes ends it, and is too long if five are there and none does |
| TagsScan.MagicIff | ct-runner/src/tags.ts:44-48 | a binary begins with a zero byte and the letters asm, and has a version field behind it |
| TagsScan.NamesTagsIff | ct-runner/src/tags.ts:30-102 | the section looked for is the one called component-test:tags@0.1, with or without a byte order mark |
| TagsScan.RepairedEnds | ct-runner/src/tags.ts:102-106 | the repair adds one newline and only where the last one is missing |
| TagsScan.Scan | ct-runner/src/tags.ts:82-111 | the recursive loop pushes, section by section, what the scan finds |
| TagsScan.Concatenate | ct-runner/src/tags.ts:115-121 | the copy loop fills one array with the chunks in order |
| TagsScan.CollectTagsSections | ct-runner/src/tags.ts:76-122 | no wasm magic is an error, no section at all is null, and otherwise the sections come with their final newline repaired |
| TagsScan.BinaryScanned | ct-runner/src/tags.ts:82-111 | the scan of any printed tree of sections finds its tags sections depth first and never looks inside the sections of a core module |
| TagsScan.CollectPrinted | ct-runner/src/tags.ts:76-122 | collecting inverts the section printer, for every valid tree and every width of the length fields |
| TagsRecords.CollectedLines | ct-runner/src/tags.ts:97-101 | the record lines of the collected bytes are those of the sections in order, for any test of record lines that discards the empty line |
| TagsRecords.ParseTagsRecords | ct-runner/src/tags.ts:133-159 | succeeds exactly when names are distinct and no mark is empty; the inventory then lists exactly the records, and otherwise the error names the first faulty record |
| TagsRecords.RecordsOfPrinted | ct-runner/src/tags.ts:133-159 | the records read are those written: of each line the first word is the name and the others are its marks |
| TagsRecords.TagsOf | ct-runner/src/tags.ts:177-184 | the record that names the case, else the first prefix record above it, else nothing |
| TagsRecords.BelowIff | ct-runner/src/tags.ts:153-184 | a record written with a prefix and a star covers exactly what is written below the prefix |
| TagsRecords.AppliesIff | ct-runner/src/tags.ts:190-194 | a case applies exactly if no feature it asks for is missing and every feature that it asks to be absent is |
| TagsRecords.ExcludingMarkFound | ct-runner/src/tags.ts:190-205 | a case that does not apply has a first unsatisfied mark, and that is the one reported |
| ShardedRun.FindByName | ct-runner/src/run-suite.ts:483-507 | the candidate at the hint if its name fits, else the first case with the name |
| ShardedRun.HintIsScan | ct-runner/src/run-suite.ts:490-503 | with distinct names the hint never changes the answer |
| ShardedRun.RunCase | ct-runner/src/run-suite.ts:286-463 | one due case: tag gating before selection before execution, one row emitted and the counts moved accordingly, or the run throws |
| ShardedRun.RunSuite | ct-runner/src/run-suite.ts:208-480 | the whole output and result: validation, envelope, the rows of the stripe in order up to the first throw, the empty-selection rule and the terminator |
| ShardedRun.CountsAddUp | ct-runner/src/run-suite.ts:270-480 | in every run that completes, each bucket is the number of rows with its status and passed + failed + skipped + na + deselected = total |
| ShardedRun.CountsTell | ct-runner/src/run-suite.ts:280-480 | in every completed run on one instance each count is a number of due cases that the suite describes: passed those that apply, are selected and returned, skipped those that said so, failed those that failed, had a bad payload, trapped or timed out, not applicable and deselected those that marks and filter rule out |
| ShardedRun.RowsTell | ct-runner/src/run-suite.ts:280-480 | the lines of a completed run report on the due cases, in order and each once: what the marks or the filter say, or what became of the case that was run, with its detail |
| ShardedRun.RunFails | ct-runner/src/run-suite.ts:200-478 | a run fails on bad options, an empty census, the first due case that no record covers or that is gone from its new enumeration, or, unsharded, a filter that no case matches |
| ShardedRun.PartitionIdentity | ct-runner/src/run-suite.ts:280-466 | for every shard count: if the unsharded run completes so does every shard, their counts add up to its counts, and their rows put in suite order are its rows |
| ShardedRun.ShardsEndWell | ct-runner/src/run-suite.ts:466-479 | conversely when every shard completes the unsharded run fails only if nothing was selected |
| ShardedRun.RerunsChangeNothing | ct-runner/src/run-suite.ts:340-353 | fresh enumerations in any order give what one enumeration gives |
| Semver.ComparePre | tools/version-guard/semver.ts:33-57 | the loop computes the comparison function the laws below are about |
| Semver.RoundMonotone | tools/version-guard/semver.ts:46-47 | rounding a numeral to a double never reverses an order |
| Semver.ReflexiveIff | tools/version-guard/semver.ts:33-67 | a version compares equal to itself if and only if none of its numeric identifiers overflows a double |
| Semver.OverflowExample | tools/version-guard/semver.ts:46-48 | an identifier that overflows, and a version above itself |
| Semver.CompareFlips | tools/version-guard/semver.ts:60-67 | without overflowing identifiers the comparison is total and sign-antisymmetric |
| Semver.CompareChains | tools/version-guard/semver.ts:60-67 | and transitive, equal precedence included |
| Semver.MinorBumpIsStrictWeakOrder | tools/version-guard/semver.ts:72-77 | the minor line is a strict weak order |
| Semver.MinorBumpIsLater | tools/version-guard/semver.ts:69-77 | a bumped version is later in the full comparison |
| SemverText.NumericIdsAgreeIff | tools/version-guard/semver.ts:44-48 | two numeric identifiers compare as section 11 says exactly when rounding keeps different values apart and equal values are in range |
| SemverText.CompareIsPrecedence | tools/version-guard/semver.ts:16-67 | on version texts whose numeric identifiers a double holds, the comparison is the precedence of section 11 of Semantic Versioning 2.0.0 if and only if rounding keeps the order of major, minor and patch as they are written |
| SemverText.SafeKeepsOrder | tools/version-guard/semver.ts:24-67 | below 2^53 rounding always keeps it |
| SemverText.MergedExample | tools/version-guard/semver.ts:24-67 | 2^53 and 2^53 + 1 as identifiers, and as major numbers, compare as equal |
| SemverText.ParseTextIff | tools/version-guard/semver.ts:12-18 | the pattern accepts exactly the texts written from valid parts and reads those parts |
| SemverText.ParsePrint | tools/version-guard/semver.ts:16-29 | reading a printed version gives it back, with or without build metadata and surrounding white space |
| SemverText.IdCharsAre | tools/version-guard/semver.ts:12-12 | identifiers are made of the letters, digits, hyphens and dots of the pattern |
| SemverText.ParseAccepts | tools/version-guard/semver.ts:16-29 | a text of the form X.Y.Z[-pre][+build], white space around it aside, is a version unless an identifier of it is empty |
| SemverText.ParseRefuses | tools/version-guard/semver.ts:16-29 | any other text is refused |
| ValueMapping.ToComponentValue | harness/src/value-mapping.ts:70-147 | builds the component value, records and flags filled label by label, and throws exactly when a NaN class stands where bits are needed |
| ValueMapping.CompareValue | harness/src/value-mapping.ts:155-384 | the recursive comparison accepts exactly the matching values; integers and floats are compared as the same kind of number |
| Doubles.EncodeDecode | harness/src/value-mapping.ts:30-48 | reading the bits of a single or double and writing the number again gives the bits back, NaN patterns those of the engine |
| ValueMapping.FloatsMatch | harness/src/value-mapping.ts:28-65 | floats of one width match by bits, NaN classes match exactly NaN |
| ValueMapping.MatchIff | harness/src/value-mapping.ts:70-384 | for values of one type, to any depth, the comparison accepts the converted value exactly when it is the value expected, records by label and flags as sets |
| ValueMapping.HostShapes | harness/src/value-mapping.ts:70-147 | the shapes of host values: labels and payloads of cases, positions of tuples, labels of records, flags |
| ValueMapping.MatchKinds | harness/src/value-mapping.ts:155-384 | a match is only ever with a host value of the kind that the expected type asks for |
| ValueMapping.ListAgainstBytes | harness/src/value-mapping.ts:264-282 | a list of small integers accepts bytes exactly if they are these integers in order |

## Left out

- Promises, timers, `fetch`, file handles and clocks: they are steps of an environment, or parameters.
- FedInput.FedInputStream.Read: of a failure only whether it is `undefined` and its message are kept, not the identity of an `IoError`.
- SinkOutput.BudgetIsExact: asks for a mark of at least 0, because below that no write is ever accepted and the upper bound has no meaning.
- Skip, splice, write-zeroes and the buffer-backed `InputStream` and `OutputStream`: calls of the modelled operations, or straight-line code.
- TimeoutRace.RaceIsFair: does not cover a callback for the timeout that throws.
- The rest of `wasi/src/http.ts` and `wasi/src/filesystem_node.ts`: URL assembly, header classes, error tables, open flags, time conversion.
- TimerPollable.WaitingIsSound: the clock is read once for the test and the sleep that follows it, where the source reads it twice and may arm a sleep of 0 ms; delays are exact, where the source rounds them to a double.
- PathText.InsideIsPrefix: "/" is the only separator.
- PathGuard.Guard: the tree does not change between the checks and the system call, so concurrent changes by other processes are not covered.
- Utf8.Utf8Decode: byte-order-mark stripping and the decoder classes around it are not part of this model; non-fatal decoding replaces byte by byte, as the code does.
- Sha256.PadMessage: an allocation that fails for lack of memory is not modelled.
- Cloneable.RoundTrip: without the `replace` option and sparse arrays; causes are own properties, progress, ok and code are primitives, and the stack that a rehydrated error gets where none was carried is shown as absent.
- TypeShapes.CanonTypeIsShape: which error is reported is not kept, only that one is.
- WorldDigest.Compute: gives the canonical document; its serialization to text and the hash of that are functions of it. Labels are compared by character, which for the ASCII identifiers of WIT is the byte order of the source.
- DigestFields.DocumentsTell: asks for identifiers without ":", "/" and "@", as WIT has them; handles are compared by the names of their resources, which DigestFields.ResourceNamesTell traces back.
- DigestOrder.ReorderingKeepsDocument: asks for distinct item names and one name per resource, as the parser guarantees; without them a later item or listing wins by position.
- `crates/bindgen/src/codegen.rs`, `source.rs` and the WIT parser are not part of this model.
- TagsScan.CollectTagsSections: decoding a section name is reduced to its one observable case, equality with the tags name with or without a byte order mark.
- TagsRecords.ParseTagsRecords: works on decoded text; the strict decoding before it is the one of any conforming decoder.
- ShardedRun.RunCase: the outcome of a case, its timeout included, is given with the case; durations, log lines and the wording of trap messages are not kept.
- SemverText.ParsePrint: asks for numbers below 2^53, where a double holds every integer.
- ValueMapping.CompareValue: inherited properties and the text of diagnostics are not modelled.
- ValueMapping.MatchIff: integers that become numbers are below 2^53, as the types guarantee; expected floats are numbers by bits or NaN classes, and the engine writes the canonical NaN; labels such as `__proto__` that objects treat specially are not modelled.
- The component runtime, its scheduler and the canonical ABI are not part of this model.
