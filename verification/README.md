# OPTiCS Agent: a verified model

This project models the parts of the OPTiCS Agent whose behaviour is hardest to see from the code, and proves
what they are meant to guarantee. `dafny verify dfyconfig.toml` checks all of it (Dafny 4.11).

| Part | Files |
| --- | --- |
| Preconnect pool of the reverse tunnel: one class per source class, each handler proved equal to a transition of a state machine, and properties of every run of that machine against any server, network and timer order | `PreconnectPool`, `PoolAccounting`, `PoolProgress`, `PoolRecovery`, `PoolBackoff`, `PoolTiming`, `PoolHistory`, `ReverseTunnelService` |
| Line reader and hand-over to the byte phase; log of repeated tunnel errors | `LineReader`, `TunnelErrorLog` |
| Canonical JSON: printer and an independent reader, meaning, key order; `normalize` on heap graphs and its cycle detection | `JsonText`, `JsonUnambiguous`, `JsonReader`, `PropertyOrder`, `Canonical`, `CanonicalTree`, `NormalizeGraph`, `CycleDetection` |
| Signing, verification, replay guard, and the verified listener | `Signing`, `SignedText`, `SignatureFacts`, `ReplayGuard`, `HubListener` |
| Self-update script: `.env` editing and the run with its rollback | `EnvFile`, `UpdateScript` |
| SSH sessions, container log streaming, Docker names | `SshTerminal`, `LogEntries`, `DockerLogService`, `DockerName` |

How the model is built:

- An object that the source mutates is a class; each method's `ensures` equates the new state with a function
  of the old one. Those functions are the steps of state machines, and the whole-run results are lemmas about
  sequences of steps. What a socket, a timer, docker or ssh2 may do is an event with an `Enabled` condition.
- A socket connects and closes at most once, does not connect after it was destroyed, and delivers no data
  before it connected nor after it was destroyed, closed or handed over. Timers may be late, never early;
  only `PoolTiming.PhasesEndInTime`, `HeartbeatEndsTheByteStream` and `SecondAckEndsTheSession` assume them on
  time.
- Fields that exist for the proofs only: `Conn.born`, `Conn.heard`, `State.lost`, `State.resetAt`,
  `Tunnel.lines`, `HubListener.arrived`, the output sequences, and the records of every socket, process and call
  ever made.
- HMAC-SHA256, SHA-1, the value of a number's text, lower-casing, the decoding of one line into a frame and
  what `sed` does with a tag that leaves its replacement are parameters: the results hold for any choice.
- Strings in the JSON part are sequences of UTF-16 code units, printed as section 25.5.2 of ECMA-262 and
  sections 4 and 7 of RFC 8259 say.

Where the code does not do what it or its comments say, the model follows the code, and a lemma gives the
exact condition or an input:

- A PRE:ERR that is not fatal settles the socket, so its close schedules nothing and a slot is lost; if it
  was the only socket, the pool sleeps until the next `initPreconnectPool` (`PoolProgress.StalledByExactly`,
  `OnlyRejectionsStall`, `EmptyStallIsPermanent`, `StallHappens`).
- A second PRE:OK on one socket replaces the heartbeat handle and leaves the first interval running; it
  outlives OPEN and close (`PoolTiming.HeartbeatSurvivesExactly`, `SecondAckOutlivesOpen`). After OPEN nobody
  reads a PONG, so it destroys the socket within 25 s (`HeartbeatEndsTheByteStream`).
- Reaching the target resets the backoff but leaves an armed refill timeout armed, which is why a burst counts
  at most one round more than the timeouts that fired (`PoolBackoff.OneRoundPerBurst`).
- Keys are sorted by code unit, but JavaScript lists array-index keys first and by number; canonical text is
  still unique, in that order. An own `__proto__` key is dropped.
- The comment on `signingMaterial` relies on nonces without newlines; that is not needed
  (`Signing.SigningMaterialIsDecodable`).
- A signature may carry one dangling hex digit, and any letter case (`SignatureFacts.EqualHexExactly`).
- The replay guard measures its window from message timestamps. With the default window and skew a message
  can be accepted twice as soon as an accepted timestamp is ahead of the receiver's clock, or that clock
  (`Date.now()`) is set back (`ReplayGuards.ReplaySafetyThreshold`, `HubListeners.ExecutesOnceExactly`).
- Without a final newline in `.env`, `write_tag` lengthens the last line and the update succeeds without
  pinning the tag (`EnvFile.WriteThenRead`, `UpdateScript.SuccessCanMissTheTarget`); a failed write at the
  switch ends the run without a rollback and can leave a truncated tag (`FailedSwitchKeepsTheTagExactly`); a
  previous tag with an ampersand is not restored (`RollbackRestoresTheTag`).
- The handlers of an SSH client find sessions by id, so an old client can end a newer session of the same id,
  and its shell be wired to it (`SshTerminal.EndedExactly`, `StaleCloseEndsTheSuccessor`, `LateReadyExactly`,
  `ReusedIdIsReadyAfterClose`); with fresh ids neither happens (`OnlyItsOwnClientEndsACall`,
  `NoReadyAfterCloseAndNoOrphanedShell`).
- The progress report of 0 per cent is never sent (`DockerLogs.NoReportOfZero`).

## Model

| member | source | states |
|---|---|---|
| PoolAccounting.Accounting | src/tunnel/reverse-tunnel.service.ts:208-224 | In every reachable state, for any server, `pending` is the number of sockets that have not settled, pool and pending together never exceed ten, and only open, settled, unconsumed sockets are pooled |
| PoolAccounting.RunKeepsInv | src/tunnel/reverse-tunnel.service.ts:170-358 | The pool's invariant (socket phases, timers, refill handle, accounts) survives every sequence of socket events and timers |
| PoolAccounting.StepKeepsInv | src/tunnel/reverse-tunnel.service.ts:232-358 | Every single handler keeps that invariant, for any frames in one chunk |
| PoolAccounting.OneRefillTimer | src/tunnel/reverse-tunnel.service.ts:118-122 | The event loop holds at most one refill timeout, and exactly the one whose handle the service keeps |
| PoolAccounting.FillingIsIdempotent | src/tunnel/reverse-tunnel.service.ts:200-213 | Filling a filled pool changes nothing |
| PoolProgress.StalledExactly | src/tunnel/reverse-tunnel.service.ts:208-213 | The accounts behind a stall in every reachable started, unsuspended state: a nonempty pool with no refill armed has pool and pending ten less the slots lost since the last filling, and is stalled exactly if some were lost; an empty one is stalled exactly if nothing is pending or armed; a stall always means lost slots |
| PoolProgress.StalledByExactly | src/tunnel/reverse-tunnel.service.ts:281-297 | In every reachable state a frame stalls a pool that was not stalled if and only if it is a non-fatal PRE:ERR on a socket still pending, with no refill armed and either sockets pooled or no other socket on its way |
| PoolProgress.OnlyRejectionsStall | src/tunnel/reverse-tunnel.service.ts:337-357 | In every reachable state, the only event that takes the pool from not stalled to stalled is a chunk with a non-fatal PRE:ERR in it |
| PoolProgress.NeverStallsWithoutNonFatalRejection | src/tunnel/reverse-tunnel.service.ts:337-357 | In runs without a non-fatal PRE:ERR the pool never stalls |
| PoolProgress.EmptyStallIsPermanent | src/tunnel/reverse-tunnel.service.ts:343-351 | A pool stalled while empty opens no socket in any continuation until it is started anew |
| PoolProgress.StallHappens | src/tunnel/reverse-tunnel.service.ts:290-296 | A run of four events in which one non-fatal rejection stalls the empty pool |
| PoolProgress.SuspensionIsAbsorbing | src/tunnel/reverse-tunnel.service.ts:209-209 | From a suspension to the next successful start no socket is created and no refill armed, whatever closes, is consumed or is acknowledged late |
| PoolProgress.FatalRejectionHalts | src/tunnel/reverse-tunnel.service.ts:285-296 | From a fatal PRE:ERR on, wherever it stands in its chunk before an OPEN and whatever follows, no socket is created and no refill armed in any continuation until the next successful start |
| PoolRecovery.FriendlyRunsFillThePool | src/tunnel/reverse-tunnel.service.ts:204-213 | From every reachable started, unsuspended, unstalled state, in any order of events, a server that acknowledges every socket needs a bounded number of them (connects, acknowledgements, closes of destroyed sockets, refills), and once none of these can follow any more, ten live sockets are pooled |
| PoolRecovery.PoolCanAlwaysRecover | src/tunnel/reverse-tunnel.service.ts:204-213 | From each of those states there is such a run, and it ends with ten live sockets pooled |
| PoolRecovery.SomethingHelps | src/tunnel/reverse-tunnel.service.ts:453-469 | As long as such a pool is short of ten sockets, one of those events is possible at once or when its timer is due |
| PoolRecovery.StartHeals | src/tunnel/reverse-tunnel.service.ts:170-198 | A start heals every reachable pool, even a halted or stalled one: it keeps the pooled sockets, clears backoff and timer, and a friendly run from there fills the pool |
| PoolBackoff.OutageLoadIsBounded | src/tunnel/reverse-tunnel.service.ts:204-213 | With the pool empty and no acceptance, connection attempts never exceed refill firings plus successful starts |
| PoolBackoff.OutageRateIsBounded | src/tunnel/reverse-tunnel.service.ts:453-469 | In such an outage with no new start, the sockets opened take at least the rest of the wait for an armed refill plus, for each further one, the next delay of the ramp, together no less than as many delays at its beginning; a suspended pool opens none |
| PoolBackoff.OneRoundPerBurst | src/tunnel/reverse-tunnel.service.ts:445-456 | Since a reset the failure counter is at most one more than the refill timeouts that fired, however many sockets failed |
| PoolHistory.BurstMakesOneRound | src/tunnel/reverse-tunnel.service.ts:445-456 | In any burst of events in which no socket is used or opened and every socket that closes was pending or had an error or timeout before, none is replaced at once, and the burst costs one round exactly if it took a pooled or pending socket, no refill was armed and the pool was not suspended |
| PoolHistory.CloseExactly | src/tunnel/reverse-tunnel.service.ts:332-357 | At any close of any run, told by its events: a socket still pending, or pooled with an earlier error, PONG timeout or connect timeout, opens no socket and leaves a refill armed with one more round; a pooled one without such evidence is replaced at once; any other close changes nothing |
| PoolBackoff.FullPoolForgetsFailures | src/tunnel/reverse-tunnel.service.ts:275-276 | In every reachable state with ten sockets pooled no failure is counted, so the next delay is the first of the ramp |
| PoolBackoff.HalfOutageKeepsTheRamp | src/tunnel/reverse-tunnel.service.ts:275-276 | While fewer than ten sockets are pooled or still acknowledged, the failures counted never fall until the next start |
| PoolBackoff.BackoffSumClosedForm | src/tunnel/reverse-tunnel.service.ts:457-457 | k rounds of the ramp take 500·(2^k − 1) ms up to k = 6 and 31500 + 30000·(k − 6) ms beyond |
| PoolBackoff.RoundsTakeTheirTime | src/tunnel/reverse-tunnel.service.ts:453-469 | In every reachable state the time since the last reset is at least what the ramp demands for the rounds counted |
| PoolBackoff.DelaysAreBounded | src/tunnel/reverse-tunnel.service.ts:457-468 | A refill is armed between the backoff and 39 seconds from now: the backoff and up to three tenths more, as the random number says, in whole milliseconds |
| PoolTiming.PhasesAreSeparate | src/tunnel/reverse-tunnel.service.ts:266-312 | A heartbeat handle is held exactly while pooled; with at most one PRE:OK handled, intervals run exactly while pooled and a PONG deadline implies pooled |
| PoolTiming.HeartbeatSurvivesExactly | src/tunnel/reverse-tunnel.service.ts:399-419 | A heartbeat survives OPEN or close if and only if PRE:OK was handled more than once on the socket |
| PoolTiming.NoPingOutsideThePool | src/tunnel/reverse-tunnel.service.ts:305-312 | A server that sends at most one PRE:OK gets no PING on a socket outside its pooled phase |
| PoolTiming.SecondAckOutlivesOpen | src/tunnel/reverse-tunnel.service.ts:270-270 | On any pooled socket a second PRE:OK followed by OPEN in one chunk leaves a heartbeat running in the byte phase |
| PoolTiming.HeartbeatEndsTheByteStream | src/tunnel/reverse-tunnel.service.ts:399-412 | With timers on time, a handed-over socket that still has a heartbeat has been destroyed 25 s later, in any continuation |
| PoolTiming.SecondAckEndsTheSession | src/tunnel/reverse-tunnel.service.ts:266-312 | So a second PRE:OK in the chunk of the OPEN of any live pooled socket hands it over alive, and it has been destroyed 25 s after that OPEN |
| PoolHistory.TimeoutsFireExactly | src/tunnel/reverse-tunnel.service.ts:232-303 | At any point of any run each timeout of a socket can fire if and only if something set it long enough ago (opening 10 s, connect 5 s, a tick 5 s), nothing stopped it since (the connect; PRE:OK or PRE:ERR; PONG or OPEN; a close), and it has not fired before |
| PoolHistory.AnsweredPingsNeverKill | src/tunnel/reverse-tunnel.service.ts:299-303 | A socket whose every PING is answered within 5 s never loses a PONG timeout, in any run |
| PoolHistory.TicksAreSpaced | src/tunnel/reverse-tunnel.service.ts:399-411 | An interval ticks no sooner than 20 s after PRE:OK or after its tick before |
| PoolHistory.ChunkExactly | src/tunnel/reverse-tunnel.service.ts:264-319 | For any lines in one chunk: the socket is handed over exactly if there is an OPEN, destroyed exactly if it was rejected before that or the OPEN names no port, pooled exactly if not handed over and pooled or acknowledged, and no other socket enters or leaves the pool |
| PoolTiming.PhasesEndInTime | src/tunnel/reverse-tunnel.service.ts:232-262 | With timers on time and any server, a socket pending longer than 15 s and a pooled socket silent for more than 25 s have been destroyed |
| ReverseTunnel.ReverseTunnelService.InitPreconnectPool | src/tunnel/reverse-tunnel.service.ts:170-198 | The start as a transition: nothing without uuid and secret, otherwise suspension, backoff and timer are cleared and the pool is filled |
| ReverseTunnel.ReverseTunnelService.FormPreconnectPool | src/tunnel/reverse-tunnel.service.ts:208-213 | Filling as a transition: a single probe for an empty pool, else up to ten, and nothing while suspended |
| ReverseTunnel.ReverseTunnelService.FillUpTo | src/tunnel/reverse-tunnel.service.ts:212-212 | The loop opens exactly the missing sockets |
| ReverseTunnel.ReverseTunnelService.Preconnect | src/tunnel/reverse-tunnel.service.ts:215-237 | One more pending socket with its connect deadline |
| ReverseTunnel.ReverseTunnelService.Settle | src/tunnel/reverse-tunnel.service.ts:219-224 | The pending slot is given back once per socket |
| ReverseTunnel.ReverseTunnelService.HandleConnect | src/tunnel/reverse-tunnel.service.ts:239-262 | The connect deadline is cleared and the ack deadline armed |
| ReverseTunnel.ReverseTunnelService.OnArrival | src/tunnel/reverse-tunnel.service.ts:386-392 | A chunk goes to the reader until it is detached, then to the local service or the paused socket |
| ReverseTunnel.ReverseTunnelService.OnData | src/tunnel/reverse-tunnel.service.ts:370-384 | The reader's loop over a chunk makes of the service what handling the split-off lines in order makes, stops at OPEN, and leaves in the buffer what the reader's specification says |
| ReverseTunnel.ReverseTunnelService.HandlePreOk | src/tunnel/reverse-tunnel.service.ts:266-279 | PRE:OK as a transition: settled, pooled, heartbeat, pool filled, failures forgotten only at the target |
| ReverseTunnel.ReverseTunnelService.HandlePreErr | src/tunnel/reverse-tunnel.service.ts:281-297 | PRE:ERR as a transition, fatal or not |
| ReverseTunnel.ReverseTunnelService.HandlePong | src/tunnel/reverse-tunnel.service.ts:299-303 | PONG clears the deadline |
| ReverseTunnel.ReverseTunnelService.HandleOpen | src/tunnel/reverse-tunnel.service.ts:305-319 | OPEN as a transition: detached, out of the pool before it is filled, destroyed on a bad port |
| ReverseTunnel.ReverseTunnelService.HandleError | src/tunnel/reverse-tunnel.service.ts:332-335 | An error leaves evidence and gives nothing back |
| ReverseTunnel.ReverseTunnelService.HandleClose | src/tunnel/reverse-tunnel.service.ts:337-357 | Close as a transition: timers and slot are given up, then backoff, refill or nothing |
| ReverseTunnel.ReverseTunnelService.ScheduleRefill | src/tunnel/reverse-tunnel.service.ts:453-469 | One more round and its timeout, unless suspended or one is armed |
| ReverseTunnel.ReverseTunnelService.FireRefill | src/tunnel/reverse-tunnel.service.ts:465-468 | The timeout forgets its handle and fills |
| ReverseTunnel.ReverseTunnelService.FireConnectDeadline | src/tunnel/reverse-tunnel.service.ts:232-237 | No handshake: unhealthy and destroyed |
| ReverseTunnel.ReverseTunnelService.FireAckDeadline | src/tunnel/reverse-tunnel.service.ts:258-261 | No answer to PRE: destroyed without being marked unhealthy |
| ReverseTunnel.ReverseTunnelService.FireHeartbeat | src/tunnel/reverse-tunnel.service.ts:400-411 | A tick asks for a PONG unless one is awaited |
| ReverseTunnel.ReverseTunnelService.FirePongDeadline | src/tunnel/reverse-tunnel.service.ts:405-410 | No PONG: unhealthy and destroyed |
| ReverseTunnel.PooledConnection.OnLocalConnect | src/tunnel/reverse-tunnel.service.ts:431-436 | The left-over bytes go first, then what waited in the paused socket |
| LineReader.DrainSplits | src/tunnel/reverse-tunnel.service.ts:373-383 | The loop's lines with their newlines and the rest are the stream; no line holds a newline, only the last may be OPEN, and without OPEN no complete line is left |
| LineReader.SplitIsUnique | src/tunnel/reverse-tunnel.service.ts:360-363 | There is only one such split |
| LineReader.DrainInTwo | src/tunnel/reverse-tunnel.service.ts:371-378 | Draining a prefix and then its rest with what follows is draining everything at once |
| LineReader.ChunkingIsInvisible | src/tunnel/reverse-tunnel.service.ts:364-393 | For every cut into chunks and every moment of the local connect, the handler gets the lines of the whole stream up to OPEN and the local service exactly the bytes after it, none lost, doubled or reordered |
| TunnelErrors.TunnelErrorLog.Record | src/tunnel/reverse-tunnel.service.ts:73-88 | The first error is printed and opens a window, later ones are counted with their last detail |
| TunnelErrors.TunnelErrorLog.Flush | src/tunnel/reverse-tunnel.service.ts:94-107 | A window with errors prints its counts and goes on, a quiet one closes |
| TunnelErrors.PrintedExactly | src/tunnel/reverse-tunnel.service.ts:62-107 | After any run an error is printed at once exactly if no window runs, the end of a window prints a block exactly if something was counted in it, and what is printed is the error just recorded or, of each kind, the detail recorded last |
| TunnelErrors.EveryErrorIsCounted | src/tunnel/reverse-tunnel.service.ts:62-68 | Over every run, of each kind printed and waiting occurrences add up to those recorded, all are printed once the window has closed, and at most one block is printed per window ended, plus one |
| JsonUnambiguous.QuotedIsUnambiguous | src/utility/hash.util.ts:96-96 | Equal texts that start with a quoted string start with the same string: escapes, lone surrogates and pairs included |
| JsonReader.RoundTrip | src/utility/hash.util.ts:95-97 | An independent reader of JSON text reads back every printed tree, and nothing is left over |
| JsonReader.PlainExactly | src/utility/hash.util.ts:95-97 | A string is printed as it stands if and only if it has no quote, backslash, control or lone surrogate |
| JsonReader.EscapesExactly | src/utility/hash.util.ts:95-97 | What the quote, the backslash, the controls with letters of their own and other units look like escaped |
| JsonUnambiguous.TextIsInjective | src/utility/hash.util.ts:95-97 | Two printable trees with the same JSON text are the same tree |
| JsonUnambiguous.TextHasNoNewline | src/utility/hash.util.ts:138-140 | JSON text contains no newline |
| PropertyOrder.BeforeIsTotalOrder | src/utility/hash.util.ts:121-121 | The order in which an object built from sorted keys lists them (array indices by number, then code units) is a strict total order |
| PropertyOrder.OwnOrderIsSorted | src/utility/hash.util.ts:119-124 | Keys created in code-unit order are listed in that total order |
| PropertyOrder.CodeUnitLessExactly | src/utility/hash.util.ts:88-88 | The sort's order is ascending: a proper prefix first, else the smaller unit where two keys first differ |
| PropertyOrder.BeforeExactly | src/utility/hash.util.ts:119-124 | The order of the printed keys, told by their texts: array indices (decimal text up to 4294967294) first, shorter or ascending first, then the other keys ascending |
| CanonicalTrees.CanonExactly | src/utility/hash.util.ts:86-97 | A tree is the canonical tree of a value if and only if it can be printed, means the same, and has the keys of every object in that order |
| CanonicalTrees.CanonicalTextReads | src/utility/hash.util.ts:95-97 | The canonical text, read by the independent reader, is one tree with its keys in order that means what the value means |
| Canonical.CanonicalizationIsExact | src/utility/hash.util.ts:79-97 | Two values have the same canonical text if and only if they mean the same JSON value, key order, dropped keys, undefined elements and NaN or Infinity aside |
| Canonical.CanonKeepsMeaning | src/utility/hash.util.ts:87-93 | The canonical tree means what the value meant |
| Canonical.SameMeaningSameCanon | src/utility/hash.util.ts:82-85 | Values of the same meaning have the same canonical tree |
| Canonical.CanonIsPrintable | src/utility/hash.util.ts:96-96 | The canonical tree always has a JSON text |
| Canonical.MeaningIgnoresOrderAndDropped | src/utility/hash.util.ts:88-90 | The meaning of an object depends neither on key order nor on undefined values |
| Canonical.TransportKeepsMeaning | src/utility/hash.util.ts:79-86 | Values that JSON.stringify prints alike mean the same, so a trip through JSON text keeps the meaning |
| NormalizeGraph.NormalizeValue | src/utility/hash.util.ts:99-130 | The walk over the heap with its mutable `seen` computes the function `Normalize`, terminates on every finite graph, and leaves `seen` as it found it on return and on throw |
| NormalizeGraph.MapItems | src/utility/hash.util.ts:115-117 | The same for array elements: the first that throws ends it |
| NormalizeGraph.FillSorted | src/utility/hash.util.ts:119-125 | The same for the sorted keys with a defined value |
| CycleDetection.NormalizeIsExact | src/utility/hash.util.ts:107-112 | It throws if and only if a cycle is reachable through array elements or defined properties, and otherwise gives the normalized tree unfolding, shared nodes included |
| CycleDetection.CanonicalizeGraphThrowsExactly | src/utility/hash.util.ts:95-112 | canonicalize on the heap throws if and only if a cycle is reachable, and otherwise prints the tree unfolding |
| CycleDetection.GraphTextIsExact | src/utility/hash.util.ts:79-130 | Two acyclic graphs, however they share objects, get the same canonical text if and only if their unfoldings mean the same JSON value |
| CycleDetection.UnfoldingIsUnique | src/utility/hash.util.ts:127-128 | A graph has at most one tree unfolding |
| SignedText.SignedLines | src/utility/hash.util.ts:142-150 | The lines of the signed string: version, event, time, the lines of the nonce, canonical payload |
| SignedText.FixedVector | src/utility/hash.util.spec.ts:226-236 | The string signed for the fixed vector that both repositories keep, byte by byte |
| Signing.SigningMaterialIsDecodable | src/utility/hash.util.ts:132-150 | For newline-free event names the signed strings are equal if and only if event, timestamp text, nonce and meaning of the stripped payload are, whatever newlines the nonces hold |
| Signing.StrippedIsWellFormed | src/utility/hash.util.ts:152-159 | Stripping the envelope leaves a proper object |
| Signing.Verify | src/utility/hash.util.ts:200-242 | The method's answer and the guard's memory are those of `VerifyOutcome`, check by check in the source's order |
| SignatureFacts.EqualHexExactly | src/utility/hash.util.ts:250-257 | A hex text compares equal to a digest if and only if its whole bytes spell it, in any case |
| SignatureFacts.CaseDoesNotMatter | src/utility/hash.util.ts:250-257 | Signatures that differ in letter case only are treated alike |
| SignatureFacts.SignedFields | src/utility/hash.util.ts:179-191 | A signed payload has the payload's fields and the three envelope fields with time, nonce and digest |
| SignatureFacts.SignedPayloadVerifies | src/utility/hash.util.ts:193-242 | Whatever means the signed payload gets the answer that timestamp, nonce, clock and guard alone decide |
| SignatureFacts.SentPayloadVerifies | src/utility/hash.util.ts:173-242 | A signed payload sent as JSON text, parsed and with the keys of its objects reordered at any depth verifies under its event and secret within the skew with a new nonce |
| SignatureFacts.SignatureCheckExactly | src/utility/hash.util.ts:200-227 | All conditions under which a payload passes the signature check, and no others |
| SignatureFacts.AlteredIsInvalid | src/utility/hash.util.ts:224-227 | A signature under another content, event or secret is turned away as invalid unless the two digests coincide |
| SignatureFacts.DamageIsNamed | src/utility/hash.util.ts:201-222 | Which damage of the envelope gets which reason, exactly |
| SignatureFacts.UnsignedStaysBare | src/utility/hash.util.ts:173-180 | Without a secret the payload stays as it is, and no receiver lets it through |
| SignatureFacts.OneSignatureOneMessage | src/utility/hash.util.ts:135-136 | One signature that passes for two payloads means equal event, timestamp, nonce and content, or a digest collision |
| ReplayGuards.ReplayGuard.Remember | src/utility/hash.util.ts:275-280 | Pruning around the message's timestamp, then the answer whether the nonce is new, and the memory |
| ReplayGuards.ReplayGuard.Prune | src/utility/hash.util.ts:291-295 | Exactly the entries within the window stay |
| ReplayGuards.AcceptedExactly | src/utility/hash.util.ts:275-295 | Over every run, with the memory left out: a message is accepted if and only if it is in time and no accepted message of its nonce is still kept, that is, nothing in time since lies further from that one than the window |
| ReplayGuards.MemoryIsHeld | src/utility/hash.util.ts:291-295 | The guard remembers a nonce, with its time, exactly while such a message is kept |
| ReplayGuards.AcceptedIsRemembered | src/utility/hash.util.ts:262-265 | With a wide enough window an accepted message stays in memory as long as a copy could still be in time, even by a clock that was set back |
| ReplayGuards.ReplaySafetyThreshold | src/utility/hash.util.ts:229-239 | No run with bounded leads and setbacks accepts a nonce and timestamp twice if and only if the window is at least the skew plus how far ahead of the receiver's clock (at most the skew) accepted timestamps lie plus how far back that clock is set |
| HubListeners.HubListener.Receive | src/utility/createSocketListener.util.ts:73-98 | After every arrival the handler calls made so far are, in order, those of the packets that should reach a handler: `register`, `connect` and `disconnect` always, any other exactly if its signature holds, it is within five minutes and no packet of its nonce that was let through is still kept |
| HubListeners.ReachesExactly | src/utility/createSocketListener.util.ts:37-98 | Packet k of any run reaches its handler if and only if that says so |
| HubListeners.NothingIsExecutedTwice | src/utility/createSocketListener.util.ts:44-50 | Over every run in which the receiver's clock is never set back and no accepted timestamp is ahead of it, across events, payloads and secrets, no signed nonce and time reach a handler twice |
| HubListeners.LeadOrSetbackRunsTwice | src/utility/hash.util.ts:229-295 | For any event, plain payload and secret, any lead of at most the skew and any setback of the clock, not both zero, a run of three signed packets within these bounds executes the same packet twice |
| HubListeners.ExecutesOnceExactly | src/utility/createSocketListener.util.ts:44-97 | With the default window and skew no run executes a packet twice if and only if no accepted timestamp may be ahead of the receiver's clock and that clock may not be set back |
| HubListeners.OnlyExecutedAreRemembered | src/utility/hash.util.ts:193-199 | Over every run each nonce the guard remembers is that of a packet that was executed, with its time: what is turned away burns no nonce |
| HubListeners.NoSignatureServesTwoEvents | src/utility/createSocketListener.util.ts:79-97 | A packet that ran under one event does not run under another, unless the digest collides |
| EnvFile.WriteThenRead | entrypoints/update.sh:22-37 | read_tag after write_tag gives the tag if and only if: no ampersand over an existing tag; else a missing or newline-terminated file, or the default tag |
| EnvFile.OverwriteTouchesOnlyTagLines | entrypoints/update.sh:33-33 | sed changes every tag line and nothing else, newline at the end included |
| EnvFile.AppendAddsOneLine | entrypoints/update.sh:35-35 | printf adds one line to a terminated or missing file |
| EnvFile.GlueReadsLatest | entrypoints/update.sh:35-35 | Without the last newline the tag is lost and read_tag gives the default |
| EnvFile.RestoringIsExact | entrypoints/update.sh:33-33 | Overwriting the tag and putting the first one back gives the same bytes if and only if all tag lines agreed and the tag has no ampersand |
| UpdateScript.Updater.Write | entrypoints/update.sh:30-37 | write_tag as a function of the file, the tag and how far the write got |
| UpdateScript.Updater.Rollback | entrypoints/update.sh:60-70 | The rollback tries the container even if the file could not be written |
| UpdateScript.Updater.Update | entrypoints/update.sh:51-99 | File, outside actions and exit of the whole run, for every outcome of every step |
| UpdateScript.SuccessExactly | entrypoints/update.sh:76-99 | Success if and only if every step worked and the target was seen running after it was recreated from the file that was written |
| UpdateScript.SuccessPinsTheTarget | entrypoints/update.sh:84-99 | With a tag line or a last newline to start from, success leaves the target in every tag line |
| UpdateScript.SuccessCanMissTheTarget | entrypoints/update.sh:35-35 | A file for which the update succeeds and the default stays in force |
| UpdateScript.ContainerFollowsTheFile | entrypoints/update.sh:51-99 | Over all outcomes the container is recreated if and only if config, pull and the switch write worked, and last from the file as the run leaves it |
| UpdateScript.ActionsExactly | entrypoints/update.sh:51-99 | Everything the script does outside, over all outcomes and in order: one pull, the container recreated after the switch and once more in a rollback, and a look at it exactly after each time it came up |
| UpdateScript.TagAfterwards | entrypoints/update.sh:51-99 | Over all outcomes, from a file with a plain tag, the tag afterwards is the target after a success or a rollback that could not write, and the old one otherwise |
| UpdateScript.FileAfterwards | entrypoints/update.sh:51-99 | The same byte for byte when all tag lines agree: the switched file or the original |
| UpdateScript.FailedSwitchKeepsTheTagExactly | entrypoints/update.sh:81-84 | Over every file, a switch whose write fails leaves the tag read as it was if and only if a tag line existed, the last newline was missing, less than the start of a tag line arrived, the missing file was not created, or what arrived of the tag is the default |
| UpdateScript.FailedSwitchCanTruncateTheTag | entrypoints/update.sh:84-84 | Which tag is then read from a terminated file without one: the default, a part of the target, or the target |
| UpdateScript.RollbackRestoresTheTag | entrypoints/update.sh:60-70 | A rollback whose write succeeds restores the tag read at the start if and only if it holds no ampersand, recreates the container from that file, and is never a success |
| UpdateScript.RollbackRestoresTheFile | entrypoints/update.sh:57-63 | Byte for byte if and only if all tag lines held that one tag |
| UpdateScript.FailedRestoreKeepsTheTarget | entrypoints/update.sh:62-64 | A rollback whose write fails, on the disk or in `sed`, leaves the new tag and recreates the container all the same |
| UpdateScript.PreviousStaysInside | entrypoints/update.sh:22-28 | A tag that was read never holds a newline, so only a vertical bar or a backslash can leave sed's replacement |
| SshTerminal.ClosedExactlyOnce | src/terminal/ssh-terminal.service.ts:117-124 | Whatever the ids, each open call is closed at most once, exactly once if refused, if its client closed, or if it left the map, with its client ended; onReady comes at most once |
| SshTerminal.StepKeepsInv | src/terminal/ssh-terminal.service.ts:45-71 | Every handler keeps: closed exactly if not the session in the map under its id |
| SshTerminal.NoReadyAfterCloseAndNoOrphanedShell | src/terminal/ssh-terminal.service.ts:56-66 | With fresh ids onReady never follows onClose, and a shell nobody told to close belongs to a session still there |
| SshTerminal.LateReadyExactly | src/terminal/ssh-terminal.service.ts:56-66 | onReady follows onClose exactly when a shell opens and another call's session is under its id |
| SshTerminal.EndedExactly | src/terminal/ssh-terminal.service.ts:51-71 | Whatever the ids, a step fires the onClose of a live call if and only if some call's shell fails, wired stream closes, or client fails or closes under the same id, or the id is asked to close, or the module goes down |
| SshTerminal.OnlyItsOwnClientEndsACall | src/terminal/ssh-terminal.service.ts:51-71 | At every step after every run with fresh ids, those events are the call's own: no client, shell or stream of another call ends it |
| SshTerminal.StaleCloseEndsTheSuccessor | src/terminal/ssh-terminal.service.ts:70-70 | A run in which an old client's close ends the session that reuses its id, the case EndedExactly allows and fresh ids exclude |
| SshTerminal.ReusedIdIsReadyAfterClose | src/terminal/ssh-terminal.service.ts:56-66 | A run in which onReady reaches callbacks already closed |
| SshTerminal.SshTerminalService.Open | src/terminal/ssh-terminal.service.ts:24-43 | Refused and closed at once for a taken id or a bad configuration, else a new session |
| SshTerminal.SshTerminalService.OnShell | src/terminal/ssh-terminal.service.ts:50-66 | The shell's answer as a transition |
| SshTerminal.SshTerminalService.OnReady | src/terminal/ssh-terminal.service.ts:45-50 | The client is ready and a shell is asked for |
| SshTerminal.SshTerminalService.OnStreamClose | src/terminal/ssh-terminal.service.ts:65-65 | The close of a stream finishes the session now under its id if the stream was wired |
| SshTerminal.SshTerminalService.OnClientError | src/terminal/ssh-terminal.service.ts:69-69 | An error finishes the session now under the id |
| SshTerminal.SshTerminalService.OnClientClose | src/terminal/ssh-terminal.service.ts:70-70 | The client's close as a transition |
| SshTerminal.SshTerminalService.OnModuleDestroy | src/terminal/ssh-terminal.service.ts:86-88 | Every session is finished and the map is empty |
| SshTerminal.SshTerminalService.Finish | src/terminal/ssh-terminal.service.ts:117-124 | The session leaves the map, its stream is closed, its client ended and onClose called, once |
| LogEntries.SortIsStable | src/docker/utility/docker-log.parser.ts:56-58 | Sorting permutes, puts in time order, and keeps the order within each time |
| LogEntries.StableOrderIsUnique | src/docker/utility/docker-log.parser.ts:56-64 | Time order and the order within each time determine the list |
| LogEntries.FetchedIsTheStableMerge | src/docker/docker-log.service.ts:117-135 | A list is what is fetched if and only if it is in time order and holds, per time, the stdout entries and then the stderr entries |
| LogEntries.FailureIsNeverSilent | src/docker/docker-log.service.ts:130-132 | Nothing is fetched only if the command worked and printed nothing; a failed one with no output yields its error entry |
| LogEntries.UntimedComeLast | src/docker/utility/docker-log.parser.ts:56-64 | Entries without a time come after those of any date |
| DockerLogs.HistoryIsDelivered | src/docker/docker-log.service.ts:52-57 | The entries sent, in batches or one by one, are the history in order |
| DockerLogs.BatchSizes | src/docker/docker-log.service.ts:52-54 | Every batch has 1 to 2000 entries |
| DockerLogs.PercentIsRounded | src/docker/docker-log.service.ts:44-44 | A percentage is loaded / total · 100 rounded to the nearest whole number, halves up |
| DockerLogs.ReportsRise | src/docker/docker-log.service.ts:42-48 | Reports never fall, stay within 0 to 100, rise by five at a time while loading, and end with completion at 100 |
| DockerLogs.LaterReportsAreHigher | src/docker/docker-log.service.ts:45-46 | What rising means for any two reports |
| DockerLogs.AtMostTwentyPartialReports | src/docker/docker-log.service.ts:45-45 | However long the history, at most twenty reports below 100 go out |
| DockerLogs.NoReportOfZero | src/docker/docker-log.service.ts:51-51 | No report below 4 per cent goes out, so the first call reports nothing for a nonempty history |
| DockerLogs.ReportsComeInTime | src/docker/docker-log.service.ts:45-47 | Wherever a batch has just been sent, its percentage is reported next if and only if it is 100 or five above the last one reported; nowhere else does a loading report follow an entry |
| DockerLogs.ProgressIsNeverStale | src/docker/docker-log.service.ts:45-47 | At the end of every batch the last percentage reported is less than five behind |
| DockerLogs.SendHistory | src/docker/docker-log.service.ts:41-59 | The loop sends exactly the stream that the rows above and below describe |
| DockerLogs.SendBatches | src/docker/docker-log.service.ts:52-57 | Its batches and reports, from the percentage reported before |
| DockerLogs.DockerLogService.StreamContainerLog | src/docker/docker-log.service.ts:27-79 | The old follower is stopped, the history sent, the new follower put in the map |
| DockerLogs.DockerLogService.StopContainerLog | src/docker/docker-log.service.ts:97-104 | The follower is killed and leaves the map |
| DockerLogs.DockerLogService.OnClose | src/docker/docker-log.service.ts:70-75 | A close takes only its own follower out of the map |
| DockerLogs.NoOrphanedFollower | src/docker/docker-log.service.ts:34-36 | Over every run each process spawned is in the map, killed or closed, and a container has at most one that is neither killed nor closed |
| DockerLogs.EndKeepsInv | src/docker/docker-log.service.ts:71-73 | A late close evicts no successor |
| DockerName.PassesAreOneScan | src/docker/utility/docker-name.util.ts:8-12 | The three replacements are one scan that keeps letters and digits and joins them by the gap between them: nothing, a lone underscore, or a hyphen |
| DockerName.AlwaysADockerName | src/docker/utility/docker-name.util.ts:3-19 | The result is made of letters, digits and single separators, none at either end |
| DockerName.FixedPointsAreTheDockerNames | src/docker/utility/docker-name.util.ts:7-19 | A name stays as it is if and only if it is such a name |
| DockerName.Idempotent | src/docker/utility/docker-name.util.ts:7-19 | A second application changes nothing |
| DockerName.LettersAreKept | src/docker/utility/docker-name.util.ts:14-18 | Letters and digits of the lower-cased name are kept in order; the fallback is used exactly when there are none |

## Left out

- The decoding of a line into a frame (UTF-8, trim, splitting, `Number`): a parameter of the service; the port check of `pipeToLocalService` is part of the OPEN frame.
- Real sockets, pausing and piping beyond the order of bytes towards the local service; the way back from the local service.
- `ReverseTunnelService.open`, the path without a pool: two pipes and no state.
- A secret reader that stops returning a secret after the start: the caller never takes the secret back.
- Fractions of milliseconds in the refill delay: the jitter is cut to whole milliseconds.
- Functions, symbols, BigInt and `toJSON` in payloads: arbitrary code, or no JSON; dates arrive as strings.
- Objects whose properties change or whose getters act while `normalize` walks: the graph is a value during the walk, only `seen` is mutable.
- Signing a payload that is not a plain object: `sign` spreads an array into an object whose text differs from the array it signed.
- `verify` without a guard: its only caller passes one.
- HMAC-SHA256 and constant-time comparison beyond their results; attack resistance is no claim here.
- A handler that throws inside the listener: its failure is logged and changes nothing the model has.
- Missing environment variables of the update script, and other writers of `.env` while it runs.
- UpdateScript.RollbackRestoresTheTag: says nothing of a previous tag with a vertical bar or a backslash, because what `sed` makes of it depends on the rest of the line and, by POSIX, is partly unspecified; the model leaves it open.
- UpdateScript.RollbackRestoresTheFile: leaves the same previous tags open, for the same reason.
- ReverseTunnel.ReverseTunnelService.HandleConnect: leaves out the PRE line written on connect; its signature is the one modelled in `Signing`.
- SSH clients whose `connect` throws at once, and `write` and `resize`, which touch no session state.
- Callbacks that call back into the SSH service while it closes a session.
- Parsing of log lines and dates, ANSI codes and the text of log messages.
- Rounding of `loaded / total` in floating point: percentages are computed exactly.
- Lines that a killed follower still delivers.
- Service status, compose files, metrics, gateways and commands: each claim there is read off one branch.
