# SLIMHUB_v2: a verified model of the event pipeline

This Dafny project models what the hub does with the bytes its BLE nodes notify. Chunks are
assembled into frames, frames are parsed, parsed frames become unitspace events, events become
enter and exit commands, and commands are routed through the registry into the queues of the
device sessions; a logger writes rows on the side. Each stage is a specification over values,
an object or function that follows the source and is proved against it, and theorems about
every run of the specification.

| file | what it models |
|---|---|
| `MacAddress.dfy`, `Codec.dfy`, `CodecProofs.dfy` | MAC spelling, the frame format and the RAWDATA layout, as a two-way codec |
| `WireFormat.dfy` | what the bytes on the air mean, in numbers: addresses, frames, payload fields, errors, commands |
| `Assembler.dfy`, `StrayBytes.dfy` | the mutable frame assembler, the one right cut of a byte stream, and what stray bytes do to it |
| `Estimator.dfy`, `EstimatorProofs.dfy` | the unitspace state machine; histories, occupancy and enter/exit accounts |
| `Session.dfy`, `SessionProofs.dfy` | one device session, step by step over the waits of its coroutines |
| `SessionLife.dfy` | what a session gets done: cycles of a connection, progress of the worker, stopping, targets |
| `Registry.dfy`, `RegistryProofs.dfy` | sessions, aliases, routing, the status listing, and `ensure_target` |
| `RawLog.dfy`, `RawLogProofs.dfy`, `LogLife.dfy` | the logger's queue with its stop sentinel, its files and their paths, its life from start to stop |
| `Hub.dfy` | the configuration store, `handle_frame`, and the daemon's reaction to a target seen |
| `RoutingProofs.dfy` | session addresses over runs, and where the commands for a frame's MAC go |
| `HubProofs.dfy` | end-to-end theorems over runs of the daemon: frames from all sessions, targets seen in between |
| `HubLog.dfy` | what the hub logs: every frame handled becomes one row or line in its node's file |
| `WholeHub.dfy`, `WholeHubRouting.dfy` | daemon, sessions and waiting frames as one system, from notified bytes to written commands |
| `FirstContact.dfy` | one whole exchange, from a scanned node to the bytes written back to it |

`dafny verify dfyconfig.toml` checks everything.

## How concurrency is modelled

The registry's lock bodies contain no await and every queue is unbounded, so each registry
operation, `ensure_target`, `handle_frame` and the daemon's handling of one scanned target runs
without interruption and is one step. Frames of one session are handled in the order in which
their handlers were scheduled. A session is a state machine (`Session.Step`) whose inputs are calls on the session, progress of the session
coroutine, progress of its command worker, and notifications; outcomes of BLE operations are
inputs too. The theorems quantify over every sequence of inputs, so over every interleaving;
an input that cannot occur in a state changes nothing. A connection attempt is counted where
the client object is created, the step that consumes the target update. In `HubProofs` a
session's queue is the account of all that was queued on it. `WholeHub` joins that account to the
session machines: there session inputs, handled frames and targets seen interleave freely, and the
frames handed on wait in one queue, because the event loop starts the handlers in that order and
each runs to its end.

## Where the code does not do what one might expect

- Resynchronisation: the assembler drops bytes only where an impossible length is announced;
  stray bytes are dropped and all frames behind them arrive exactly when one is announced at
  each stray byte (`StrayBytes.RecoveryIff`). Before RAWDATA frames that is so for one stray
  byte and never for more (`StrayBytes.StrayRecoveryIff`): the last two announce an 83-byte frame.
- Occupancy: an exit signal of a node that is not remembered still replaces the remembered
  node, and the one it replaces gets no exit command (`EstimatorProofs.OccupancyIff` gives
  the exact condition, `EstimatorProofs.StrangerExitLeavesTwo` the failing family).
- `connected`: an exception that the last disconnect of `_run` does not suppress ends the
  coroutine with the flag still set, and a later `start` then waits for a target while claiming
  to be connected (`SessionProofs.WaitsUnconnectedIff` gives the exact condition,
  `SessionProofs.EscapedCleanupLeavesFlag` a run of a new session). The hub starts a session only
  once; there the session stays dead, flag set, however often its target is seen
  (`SessionProofs.DeadSessionRests`).
- Aliases: the repository's README says frame MACs are aliased to the active session. The code
  records an alias only while the session's current address is a registry key. A target seen
  under a node's alias takes the session away from its key, and nothing else does
  (`RoutingProofs.OwnKeysIff`). When a frame's MAC leads back to the session that delivered it
  is told exactly by `RoutingProofs.FrameRoutesBackIff`; `RoutingProofs.AliasedTargetDropsCommands`
  is a run in which a command is dropped, and `HubProofs.NoCommandLostIff` says exactly which runs
  drop none. While no target is seen under a node's alias none is dropped
  (`WholeHubRouting.UnaliasedRunLosesNothing`).
- The noise threshold of the estimator selects between two equal branches, so no timestamp
  influences a command (`EstimatorProofs.TimestampsDoNotMatter`).

## Model

| member | source | states |
|---|---|---|
| `MacAddress.NormalizeMeaning` | slimhub/protocol/nus.py:112-116 | normalizing succeeds exactly when twelve hexadecimal digits are present, whatever separates them, and the result spells the six bytes they denote |
| `MacAddress.NormalizeIdempotent` | slimhub/protocol/nus.py:112-116 | a canonical spelling normalizes to itself |
| `MacAddress.NormalizeMacText` | slimhub/protocol/nus.py:246 | the MAC text the parser gives to six bytes is canonical |
| `MacAddress.MacBytesIff` | slimhub/protocol/nus.py:119-121 | a spelling denotes given bytes if and only if its canonical form is the parser's text of those bytes |
| `Codec.BuildFrameLayout` | slimhub/protocol/nus.py:131-140 | exactly which arguments make a frame; the frame announces its own length and every field lies at its place |
| `Codec.ValidCommandText` | slimhub/protocol/nus.py:143-149 | a validated command is plain ASCII and validates to itself |
| `CodecProofs.ParsedFrameRebuilds` | slimhub/protocol/nus.py:213-262 | canonical codec: building from the fields of any accepted frame gives back its bytes |
| `CodecProofs.BuiltFrameParses` | slimhub/protocol/nus.py:213-262 | a built frame is accepted if and only if the hub understands its type and payload; all fields come back, otherwise the error is the type's |
| `CodecProofs.AcceptedIffBuilt` | slimhub/protocol/nus.py:228-262 | the parser accepts exactly what the builder makes of an understood type |
| `CodecProofs.RawDataRepacks` | slimhub/protocol/nus.py:156-206 | every 33-byte payload unpacks, no other does, and packing the fields gives the payload back |
| `CodecProofs.PackedRawDataParses` | slimhub/protocol/nus.py:163-206 | unpacking recovers every field of a packed structure |
| `CodecProofs.PirEventPayload` | slimhub/protocol/nus.py:178-191 | one payload alone is the PIR event: two ones and 31 zeros |
| `CodecProofs.CommandFrameMeaning` | slimhub/protocol/nus.py:152-153 | a command frame exists exactly for a valid command and address, carries both, fits the frame limit, and is refused by the hub's own parser as an unknown type (its bytes: `CommandOnWire`) |
| `CodecProofs.CommandFrameInjective` | slimhub/protocol/nus.py:143-153 | command frames are equal exactly for the same node and the same command up to the legacy spellings |
| `WireFormat.CanonicalShape` | slimhub/protocol/nus.py:112-116 | a canonical address is twelve upper-case digits, the high one of each byte first, in pairs with colons between |
| `WireFormat.HexDigitValues` | slimhub/protocol/nus.py:112-121 | both cases of each of the sixteen digits have its value |
| `WireFormat.BuiltFrameOnWire` | slimhub/protocol/nus.py:131-140 | a built frame byte by byte: address, type padded with NULs, length with its low byte first, payload, carriage return and line feed |
| `WireFormat.AnnouncedLength` | slimhub/protocol/nus.py:28-36 | a header announces 18 bytes more than its length field; the limit is 4096 |
| `WireFormat.ParsedOnWire` | slimhub/protocol/nus.py:213-262 | exactly which bytes the parser accepts, told in numbers, and which slices its result holds |
| `WireFormat.ParseErrors` | slimhub/protocol/nus.py:213-257 | exactly which bytes raise which error; of several faults the first is blamed |
| `WireFormat.RawDataOnWire` | slimhub/protocol/nus.py:156-206 | every field of a RAWDATA payload by its place: two bytes, seven numbers with their low byte first, a byte, sixteen signed bytes |
| `WireFormat.CommandWords` | slimhub/protocol/nus.py:14-26 | the seven commands, and the two old spellings that stand for the strong ones |
| `WireFormat.CommandOnWire` | slimhub/protocol/nus.py:152-153 | a command frame byte by byte: the node, the type COMMAND, the word and its length |
| `Assembler.FrameAssembler.constructor` | slimhub/protocol/nus.py:75-77 | a new assembler has an empty buffer and the given limit, 4096 by default |
| `Assembler.FrameAssembler.Push` | slimhub/protocol/nus.py:79-106 | the buffer loop emits the frames and keeps the remainder that the specification of the whole stream gives for buffer and chunk |
| `Assembler.FrameAssembler.Clear` | slimhub/protocol/nus.py:108-109 | the buffer is emptied |
| `AssemblerProofs.ScanIffRightCut` | slimhub/protocol/nus.py:83-104 | the stream specification is the only cut that accounts for all bytes, drops one exactly at an impossible length, emits announced lengths in full and leaves only an incomplete frame |
| `AssemblerProofs.ReachableBuffer` | slimhub/protocol/nus.py:79-109 | after any history of calls the buffer holds no complete frame and is shorter than max(18, limit) |
| `AssemblerProofs.ScanAppend` | slimhub/protocol/nus.py:80-104 | bytes that arrive later never change a piece already cut |
| `AssemblerProofs.ChunkInvariance` | slimhub/protocol/nus.py:79-106 | any list of chunks gives the same pieces and the same buffer as one push of their concatenation |
| `AssemblerProofs.RunConservation` | slimhub/protocol/nus.py:80-106 | over any run all bytes are accounted for in order, and every emitted frame has the length it announces, within the limit, so it passes both length checks of the parser |
| `AssemblerProofs.PromptDelivery` | slimhub/protocol/nus.py:83-106 | after any prefix of a valid stream exactly the frames whose last byte arrived are emitted and the partial one is buffered |
| `AssemblerProofs.WholeStream` | slimhub/protocol/nus.py:79-106 | any chunking of a stream of whole frames yields these frames and an empty buffer |
| `AssemblerProofs.StreamRoundTrip` | slimhub/protocol/nus.py:79-140 | messages built, concatenated and chunked arbitrarily arrive one by one in order, and ALERT and RAWDATA ones parse back to address, type and payload |
| `StrayBytes.BuiltRawDataFrame` | slimhub/protocol/nus.py:131-140 | every frame built from a 33-byte RAWDATA payload has the header the results on stray bytes rely on |
| `StrayBytes.MisreadLength` | slimhub/protocol/nus.py:84-89 | the length that is read when stray bytes shift the header into the packet type |
| `StrayBytes.OneStrayByte` | slimhub/protocol/nus.py:84-104 | one arbitrary byte before a RAWDATA stream is dropped and every frame still arrives, under any chunking |
| `StrayBytes.TwoStrayBytes` | slimhub/protocol/nus.py:84-104 | two stray bytes announce an 83-byte frame, which is emitted and swallows the first real frame |
| `StrayBytes.MisframedRejected` | slimhub/protocol/nus.py:238-253 | whatever fills up that wrong frame, the parser refuses it |
| `StrayBytes.RecoveryIff` | slimhub/protocol/nus.py:83-104 | any number of stray bytes before any stream of whole frames is dropped and every frame still emitted, under any chunking, if and only if an impossible length is announced at each stray byte |
| `StrayBytes.StrayRecoveryIff` | slimhub/protocol/nus.py:83-104 | any number of stray bytes before a RAWDATA stream is dropped and all frames emitted if and only if at most one byte is stray; of up to nine, already the frames alone arrive only then |
| `StrayBytes.RepeatedHeaderHidesStray` | slimhub/protocol/nus.py:83-104 | why not of longer prefixes: 17 stray bytes that repeat a frame's own beginning leave the emitted frames as they should be, and a rest in the buffer |
| `Estimator.SimpleUnitspaceEstimator.constructor` | slimhub/unitspace/estimator.py:22-23 | nothing is remembered at first |
| `Estimator.SimpleUnitspaceEstimator.Handle` | slimhub/unitspace/estimator.py:25-39 | returns the commands of the event's signal given the node remembered before, and remembers the node of every signal; an event that raises changes nothing |
| `Estimator.SimpleUnitspaceEstimator.HandleEnter` | slimhub/unitspace/estimator.py:41-64 | the commands and the new status of an enter signal |
| `Estimator.SimpleUnitspaceEstimator.Remember` | slimhub/unitspace/estimator.py:73-76 | all three remembered fields are replaced |
| `EstimatorProofs.SignalOnWire` | slimhub/unitspace/estimator.py:9-39 | which payload bytes are an enter, an exit, or nothing, and which node and place they name; exactly when the event raises |
| `EstimatorProofs.FirstCommandOnWire` | slimhub/unitspace/estimator.py:25-48 | the command for a first frame, told by its bytes |
| `EstimatorProofs.RunIsHistory` | slimhub/unitspace/estimator.py:25-64 | the commands of a run are told by its list of signals, each with its predecessor alone |
| `EstimatorProofs.TimestampsDoNotMatter` | slimhub/unitspace/estimator.py:51-56 | runs that differ only in timestamps emit the same commands and remember the same node |
| `EstimatorProofs.IrrelevantEventDeleted` | slimhub/unitspace/estimator.py:26-39 | deleting an event without a signal anywhere in a run changes no command and no status |
| `EstimatorProofs.RepeatedEnterDeleted` | slimhub/unitspace/estimator.py:51-56 | deleting an enter that repeats address and location of the preceding signal changes no command |
| `EstimatorProofs.RemembersLastSignal` | slimhub/unitspace/estimator.py:73-76 | what is remembered after a run is its last signal: node, place and time |
| `EstimatorProofs.OccupancyIff` | slimhub/unitspace/estimator.py:25-64 | at most the remembered node is occupied throughout a run if and only if every exit signal comes from it or while nobody is present |
| `EstimatorProofs.StrangerExitLeavesTwo` | slimhub/unitspace/estimator.py:35-37 | enter at one node, exit at a second, enter at a third leaves two nodes occupied |
| `EstimatorProofs.RunBalance` | slimhub/unitspace/estimator.py:33-64 | for every node and run, enters minus exits equals what the node gained in being remembered, corrected by the exit signals alone |
| `EstimatorProofs.EnterRunBalance` | slimhub/unitspace/estimator.py:41-64 | without exit signals enters minus exits is one for the remembered node and zero for every other |
| `EstimatorProofs.CommandOrigin` | slimhub/unitspace/estimator.py:29-64 | every command of a run is an enter or exit with a location, addressed to a node heard in the run |
| `EstimatorProofs.CommandsAreDeliverable` | slimhub/unitspace/estimator.py:29-64 | every command of a run validates unchanged, makes a frame, and that frame opens with MAC bytes spelled by an event of the run |
| `Session.DeviceSession.Create` | slimhub/ble/device_session.py:30-58 | a target makes a new session in its initial state, with a target update pending; one with a bad address raises |
| `Session.DeviceSession.constructor` | slimhub/ble/device_session.py:34-58 | the fields of a new session, given its normalized address |
| `Session.DeviceSession.UpdateTarget` | slimhub/ble/device_session.py:60-66 | target, address and name are replaced and an attempt is released; with a bad address only the target is |
| `Session.DeviceSession.Start` | slimhub/ble/device_session.py:68-71 | a coroutine starts only when none is running, and clears the stop request |
| `Session.DeviceSession.RequestStop` | slimhub/ble/device_session.py:73-74 | the stop request is set and nothing else changes |
| `Session.DeviceSession.FinishStop` | slimhub/ble/device_session.py:75-77 | after the coroutine has returned the session can be started again |
| `Session.DeviceSession.SendCommand` | slimhub/ble/device_session.py:79-80 | the command goes to the end of the queue, whether or not a connection exists |
| `Session.DeviceSession.Poll` | slimhub/ble/device_session.py:233-249 | one look at the events: a stop ends the session without consuming the update, an update is consumed by one attempt |
| `Session.DeviceSession.LockGranted` | slimhub/ble/device_session.py:112-113 | the adapter lock lets the connect call begin |
| `Session.DeviceSession.OnConnected` | slimhub/ble/device_session.py:113-119 | flags are set from the client and the connection gets an assembler of its own |
| `Session.DeviceSession.OnSubscribed` | slimhub/ble/device_session.py:125-132 | the error is cleared and a command worker starts |
| `Session.DeviceSession.OnFailure` | slimhub/ble/device_session.py:157-181 | a raise while the client is made, connecting, subscribing or tearing down: the error is kept, an expected failure noted as unavailable, and the session cleans up |
| `Session.DeviceSession.OnDisconnect` | slimhub/ble/device_session.py:99-101 | the disconnect event is set |
| `Session.DeviceSession.OnWake` | slimhub/ble/device_session.py:133-146 | a stop or a disconnect ends the watch |
| `Session.DeviceSession.ReapWorker` | slimhub/ble/device_session.py:148-149 | the worker is cancelled; a command being written is abandoned |
| `Session.DeviceSession.OnTornDown` | slimhub/ble/device_session.py:150-153 | after the tear-down the session cleans up |
| `Session.DeviceSession.CleanUp` | slimhub/ble/device_session.py:174-185 | a client that still reports a connection is disconnected first, else the flags are cleared |
| `Session.DeviceSession.LeaveConnection` | slimhub/ble/device_session.py:180-185 | flags cleared, then waiting for a target or ended, by the stop request |
| `Session.DeviceSession.OnClosed` | slimhub/ble/device_session.py:177-185 | the last disconnect clears the flags, unless an exception escapes it and ends the coroutine with the flags as they are |
| `Session.DeviceSession.HandleNotify` | slimhub/ble/device_session.py:187-211 | hands on, in order and under the session's current address, the frames of the stream that parse, and keeps the remainder |
| `Session.DeviceSession.StartWorkerLoop` | slimhub/ble/device_session.py:214 | the worker's loop begins unless a stop was requested |
| `Session.DeviceSession.GetCommand` | slimhub/ble/device_session.py:215-231 | the head of the queue is taken and its frame built; a frame that cannot be built finishes the command as unsent |
| `Session.DeviceSession.OnWriteDone` | slimhub/ble/device_session.py:218-231 | a write finishes its command as sent or unsent, and the loop goes on unless a stop was requested |
| `SessionProofs.StepMoves` | slimhub/ble/device_session.py:129-149 | one step moves commands only along the queue and the write in flight, and takes one only while a connection is watched |
| `SessionProofs.QueueConservation` | slimhub/ble/device_session.py:213-231 | over any run what was queued plus what was accepted is what was taken plus what is queued, in order, and likewise for the write in flight |
| `SessionProofs.EveryCommandAccounted` | slimhub/ble/device_session.py:79-80 | from a new session on the accepted commands are those finished, the one in flight and those queued, in order; the successful writes are an in-order, at-most-once selection of those dequeued, which are the first of those accepted |
| `SessionProofs.WrittenFramesAreCommands` | slimhub/ble/device_session.py:216-218 | every frame written is the command frame of the command it was queued for |
| `SessionProofs.AttemptsAreGated` | slimhub/ble/device_session.py:93-115 | in any run with any restarts, attempts and unused credit never exceed the credit at first plus the target updates |
| `SessionProofs.AttemptsBounded` | slimhub/ble/device_session.py:53-55 | a new session attempts at most one connection more than it got target updates |
| `SessionProofs.UpdateBetweenAttempts` | slimhub/ble/device_session.py:233-237 | between an attempt and any later one lies a target update |
| `SessionProofs.WaitsUnconnectedIff` | slimhub/ble/device_session.py:174-185 | a waiting session is never marked connected in a run if and only if no start revives a session left marked connected |
| `SessionProofs.NoEscapeStartsClean` | slimhub/ble/device_session.py:174-185 | without an escaped exception that holds in every run |
| `SessionProofs.EscapedCleanupLeavesFlag` | slimhub/ble/device_session.py:174-181 | with one it fails: a run of seven inputs takes a new session to waiting while marked connected |
| `SessionProofs.DeadSessionRests` | slimhub/ble/device_session.py:68-71 | without a start, as in the hub, a session whose task died attempts nothing, delivers nothing and keeps its flag in every run |
| `SessionProofs.ConnectionDelivers` | slimhub/ble/device_session.py:187-209 | within one connection the frames handed on depend only on the bytes notified, whatever else happens in between |
| `SessionProofs.NewConnectionIsFresh` | slimhub/ble/device_session.py:119-123 | no byte of an earlier connection leaks into the next one |
| `SessionLife.Connects` | slimhub/ble/device_session.py:93-132 | a waiting session with a target update connects to that target; the exact state after it, with a worker |
| `SessionLife.LosesConnection` | slimhub/ble/device_session.py:133-153 | a lost connection: the exact state after it; the session waits for its target, its queue kept |
| `SessionLife.DisconnectsLast` | slimhub/ble/device_session.py:174-181 | a client that still reports a connection is disconnected first, with the same end |
| `SessionLife.FailsToConnect` | slimhub/ble/device_session.py:157-185 | a failed attempt: the exact state after it; the error kept, the session waiting and not connected |
| `SessionLife.FailsAnywhere` | slimhub/ble/device_session.py:157-185 | so at every wait of the attempt |
| `SessionLife.EarlyLossIsNoticed` | slimhub/ble/device_session.py:99-101 | a link lost before the watch begins ends it |
| `SessionLife.TriesAgain` | slimhub/ble/device_session.py:60-66 | a target seen again is attempted at once, and without one the session goes on waiting |
| `SessionLife.StopsAndJoins` | slimhub/ble/device_session.py:73-77 | a connected session that is stopped disconnects, is joined and can be started again |
| `SessionLife.RunningHasWorker` | slimhub/ble/device_session.py:129-149 | in every run of a new session a worker exists exactly while a connection is watched |
| `SessionLife.ServingRun` | slimhub/ble/device_session.py:213-231 | among any other inputs of a healthy connection each step of the worker pays exactly one unit of what it owes, and all commands are on their way in order |
| `SessionLife.WorkerNeverStuck` | slimhub/ble/device_session.py:213-231 | the worker can make a step exactly while it owes one |
| `SessionLife.EverythingWritten` | slimhub/ble/device_session.py:213-231 | once it has made the steps it owes, every command queued or accepted meanwhile is written, in order |
| `SessionLife.SubscribedSessionWrites` | slimhub/ble/device_session.py:129-132 | from the end of the subscription on, all that was queued is written |
| `SessionLife.FailuresAreKept` | slimhub/ble/device_session.py:215-231 | a command that cannot be framed or written ends as unsent with its error kept, and the worker goes on; one being written when the link goes is abandoned |
| `SessionLife.WrittenOnWire` | slimhub/ble/device_session.py:215-218 | every frame written in a run is on the air, byte by byte, its command |
| `SessionLife.StopIsObeyed` | slimhub/ble/device_session.py:73-77 | after a stop request no connection is attempted, at most the one command is taken that the worker waits for, and every step of the session task brings its end nearer |
| `SessionLife.StopNeverStuck` | slimhub/ble/device_session.py:73-77 | and until its end the session task can make one, at most seven in all |
| `SessionLife.IdentityIsLast` | slimhub/ble/device_session.py:60-66 | target, address and name are the last ones given, in every run |
| `SessionLife.AttemptNamesLastTarget` | slimhub/ble/device_session.py:108-111 | every connection attempt names the last target given |
| `Registry.DeviceRegistry.constructor` | slimhub/ble/registry.py:10-13 | an empty registry satisfies the routing invariant |
| `Registry.DeviceRegistry.Add` | slimhub/ble/registry.py:15-17 | the session is stored under its canonical address, nothing else changes, and the routing invariant is kept |
| `Registry.DeviceRegistry.Get` | slimhub/ble/registry.py:19-28 | the session of the address, else of its alias, else none; a bad address raises |
| `Registry.DeviceRegistry.RegisterAlias` | slimhub/ble/registry.py:30-35 | an alias is recorded exactly when the address it points to is a key, and the routing invariant is kept |
| `Registry.DeviceRegistry.ResolveAddress` | slimhub/ble/registry.py:37-42 | keys resolve to themselves, aliases to their key, other addresses to themselves |
| `Registry.DeviceRegistry.SendCommand` | slimhub/ble/registry.py:44-49 | the command is appended to the queue of the session it leads to, and to no other |
| `Registry.DeviceRegistry.GroupAliases` | slimhub/ble/registry.py:53-55 | the one-pass grouping holds for every address exactly its aliases, in order |
| `Registry.DeviceRegistry.ListStatus` | slimhub/ble/registry.py:51-62 | the rows are those of the listing specification |
| `Central.BleCentral.EnsureTarget` | slimhub/ble/central.py:31-46 | a session is created, stored and started only when the address leads nowhere, else the session it leads to is retargeted; exactly how routes and session addresses change; all queues are untouched |
| `Central.BleCentral.Open` | slimhub/ble/central.py:35-43 | the new session is stored under its address, started, and waits for a target |
| `RegistryProofs.LookupIsResolve` | slimhub/ble/registry.py:19-42 | get is the session under the resolved address, resolving twice is resolving once, and only addresses neither key nor alias lead nowhere |
| `RegistryProofs.RoutingKept` | slimhub/ble/registry.py:15-35 | every alias points to a key and all addresses are canonical, after every routing step |
| `RegistryProofs.RoutesArePermanent` | slimhub/ble/central.py:31-46 | over any run of ensure_target and register_alias a key keeps its session, an address reached through an alias never becomes a key, and an address that leads somewhere always does |
| `RegistryProofs.PlacesKept` | slimhub/ble/registry.py:11-17 | keys and aliases keep their places in every run; new ones come last |
| `RegistryProofs.SortedSorts` | slimhub/ble/registry.py:60 | the sorted list is in order and a permutation |
| `RegistryProofs.StringLeMeaning` | slimhub/ble/registry.py:60 | the order is the dictionary order: a prefix first, and where two strings part the smaller character |
| `RegistryProofs.ListingInvertsAliases` | slimhub/ble/registry.py:51-62 | every alias stands exactly once in the row of its session and in no other, and each list is sorted |
| `RegistryProofs.ListingCountsAliases` | slimhub/ble/registry.py:53-62 | the lists of all rows together are as long as the alias map |
| `RawLog.RawDataLogger.constructor` | slimhub/logging/raw_logger.py:45-48 | an empty queue and no drain loop |
| `RawLog.RawDataLogger.Start` | slimhub/logging/raw_logger.py:50-53 | a drain loop starts only when there is none |
| `RawLog.RawDataLogger.RequestStop` | slimhub/logging/raw_logger.py:55-58 | a sentinel is queued if there is a drain loop |
| `RawLog.RawDataLogger.FinishStop` | slimhub/logging/raw_logger.py:59-60 | after the loop has returned the logger can be started again |
| `RawLog.RawDataLogger.LogItem` | slimhub/logging/raw_logger.py:62-72 | with a drain loop the item is queued, without one it is written at once |
| `RawLog.RawDataLogger.Write` | slimhub/logging/raw_logger.py:79-82 | each kind of item goes to its own writer |
| `RawLog.RawDataLogger.WriteEvent` | slimhub/logging/raw_logger.py:84-92 | the row is appended to the event's file, after a header if the file was absent or empty |
| `RawLog.RawDataLogger.WriteAlert` | slimhub/logging/raw_logger.py:94-98 | the line is appended to the alert's file |
| `RawLog.RawDataLogger.TakeEntry` | slimhub/logging/raw_logger.py:74-82 | one turn of the drain loop: return at a sentinel, write an item, die of a failing write |
| `RawLogProofs.QueueIsFifo` | slimhub/logging/raw_logger.py:55-82 | over any run what was queued plus what was put is what was taken plus what is queued |
| `RawLogProofs.TaskLife` | slimhub/logging/raw_logger.py:74-82 | one life of the drain loop has written, in order, every item it took, but for one whose write killed it |
| `RawLogProofs.StopDrainsQueue` | slimhub/logging/raw_logger.py:55-60 | when stop can return, the items written are exactly those queued before the first sentinel, each once and in order |
| `RawLogProofs.StopReturns` | slimhub/logging/raw_logger.py:55-60 | on a healthy disk the drain loop ends at the first sentinel after exactly as many turns as it takes to reach it, whatever else is logged |
| `RawLogProofs.HealthyTaskLives` | slimhub/logging/raw_logger.py:74-98 | the drain loop dies only of a failing write |
| `RawLogProofs.FilesAreWrites` | slimhub/logging/raw_logger.py:62-98 | over any run, queued or direct, the files are what the writes made of them in order |
| `RawLogProofs.SameFiles` | slimhub/logging/raw_logger.py:100-113 | a location with a separator at its end names the same file |
| `RawLogProofs.PathsDisjoint` | slimhub/logging/raw_logger.py:100-128 | no event and no alert share a file |
| `RawLogProofs.RawFileShape` | slimhub/logging/raw_logger.py:84-92 | a raw data file grows by exactly the rows of its events in order, after one header if it was absent or empty |
| `RawLogProofs.AlertFileShape` | slimhub/logging/raw_logger.py:94-98 | an alert file grows by exactly the lines of its alerts in order, without header |
| `RawLogProofs.LoggedFile` | slimhub/logging/raw_logger.py:50-98 | from start to stop, a file that was absent or empty is one header and the rows of all its events queued before the sentinel |
| `LogLife.ComponentsMeaning` | slimhub/logging/raw_logger.py:100-113 | how a path text falls into components |
| `LogLife.PathShape` | slimhub/logging/raw_logger.py:100-113 | where an event goes: data directory, location, type, node, inference, rawdata, day |
| `LogLife.AlertPathShape` | slimhub/logging/raw_logger.py:115-128 | where an alert goes: likewise, debugstr |
| `LogLife.OneFileIff` | slimhub/logging/raw_logger.py:100-113 | two events share a file exactly if node, day and folder are the same |
| `LogLife.OneAlertFileIff` | slimhub/logging/raw_logger.py:115-128 | likewise two alerts |
| `LogLife.FileOfOneNode` | slimhub/logging/raw_logger.py:84-113 | whatever else is logged, a file receives the header and rows of one node and one day only |
| `LogLife.AlertFileOfOneNode` | slimhub/logging/raw_logger.py:94-128 | likewise for alerts |
| `LogLife.WorkKeepsItems` | slimhub/logging/raw_logger.py:62-82 | while the logger works nothing given to it is lost or doubled, whatever turns the loop makes |
| `LogLife.StartToStop` | slimhub/logging/raw_logger.py:50-82 | from start to stop: the loop ends, stop returns, nothing is left queued, every item logged is written once and in order |
| `Config.LoadSaveKeepsLookups` | slimhub/config.py:127-151 | loading a record and saving it back changes no lookup, of any address, and keeps every record under its own address |
| `Config.EnsureKeepsLocations` | slimhub/config.py:164-177 | the record of a target: an old one keeps its type, and its name or takes one if it has none; a new one takes both; no location and no other record changes |
| `Hub.SlimHubDaemon.constructor` | slimhub/daemon.py:46-58 | a new daemon has an empty registry, a logger without a drain loop and nothing remembered |
| `Hub.SlimHubDaemon.HandleFrame` | slimhub/daemon.py:184-222 | the whole hub after a frame: alias, configuration, log, estimator and routed commands; a bad frame or session address raises and changes nothing |
| `Hub.SlimHubDaemon.HandleRawData` | slimhub/daemon.py:186-209 | the RAWDATA branch |
| `Hub.SlimHubDaemon.EstimateAndSend` | slimhub/daemon.py:199-208 | the estimator advances by the event and its commands are routed; an event that raises commands nothing |
| `Hub.SlimHubDaemon.HandleAlert` | slimhub/daemon.py:210-222 | the ALERT branch: logged, and nothing commanded |
| `Hub.SlimHubDaemon.LoadAndSave` | slimhub/daemon.py:187-188 | the record is completed with defaults and written back; a bad address raises and changes nothing |
| `Hub.SlimHubDaemon.SendAll` | slimhub/daemon.py:199-208 | each command goes to the session it is routed to, one after the other; a command without a session is skipped |
| `Hub.SlimHubDaemon.StartOrUpdateSession` | slimhub/daemon.py:243-250 | the whole hub after a target was seen: the session started or retargeted, its record completed, all else as before; a bad address raises and changes nothing |
| `HubLog.EventTold` | slimhub/daemon.py:187-196 | an event tells the time, the frame, and the location and type of the node's own record, or the defaults |
| `HubLog.AlertTold` | slimhub/daemon.py:211-221 | likewise an alert |
| `HubLog.EveryFrameLogged` | slimhub/daemon.py:184-222 | a run of the hub gives the logger exactly the items of its frames, in order |
| `HubLog.OneItemEach` | slimhub/daemon.py:184-222 | one item for each frame that is not refused, and each has a file |
| `HubLog.HubLogged` | slimhub/logging/raw_logger.py:62-72 | with a drain loop the queue grows by exactly the run's items, without one the files are written at once |
| `HubLog.FramesReachFiles` | slimhub/daemon.py:184-222 | from frames to files: after the logger is stopped a node's file is one header and exactly the rows of its frames, in order |
| `RoutingProofs.WiringKept` | slimhub/ble/central.py:31-46 | after every target seen and every alias: distinct keys hold distinct sessions, and each session has its key or a recorded alias that is no key for its address |
| `RoutingProofs.WiringReachable` | slimhub/ble/central.py:31-46 | so in every run from the empty hub |
| `RoutingProofs.DeliveringSession` | slimhub/ble/registry.py:15-17 | a session whose current address is a key is the one stored under that key |
| `RoutingProofs.OwnKeysIff` | slimhub/ble/central.py:32-45 | a step takes a session away from its key if and only if it is a target seen under an alias that is no key |
| `RoutingProofs.HeldForever` | slimhub/daemon.py:185 | an address that a session had once is forever one of those its frames are covered under |
| `RoutingProofs.FrameMacRoutesBack` | slimhub/daemon.py:185 | after a frame handed on under a key its MAC leads to the session of that key, unless that MAC is itself a key |
| `RoutingProofs.RoutesBackIff` | slimhub/daemon.py:185 | for any address the delivering session has or had: exactly when the MAC of its frame leads back to it |
| `RoutingProofs.FrameRoutesBackIff` | slimhub/daemon.py:185 | in every reachable hub the MAC of a frame leads to the session that delivered it if and only if the MAC is its key, or is no key and either the session has its key for its address or the MAC was aliased to it before |
| `RoutingProofs.AliasedTargetDropsCommands` | slimhub/ble/central.py:45 | target K seen, frame of A through it, A seen as target: then a frame with a third MAC through that session teaches no alias and the command for its MAC is dropped |
| `RoutingProofs.DispatchIsExact` | slimhub/daemon.py:199-208 | dispatching appends to every queue exactly the commands that lead to its session, in order |
| `RoutingProofs.EnterGoesBack` | slimhub/daemon.py:184-208 | in a reachable hub: the enter command of a newly entered node is the next command queued on the session that delivered its frame if and only if the MAC is that session's key, or is no key and either the session has its key for its address or the MAC was aliased to it before |
| `RoutingProofs.LastTeachingDecides` | slimhub/ble/registry.py:19-35 | over any run an address leads to the session that last taught it, else to the one made for it |
| `RoutingProofs.ExitGoesBack` | slimhub/daemon.py:199-208 | the exit command of a displaced node is queued last on the session through which the node's own frame came, whatever was routed in between, unless its MAC is a key, then on that key's session |
| `HubProofs.ChunkingAndTimeDoNotMatter` | slimhub/daemon.py:184-222 | from a fixed hub and any reachable buffer, the same bytes in any chunks and at any times give the same frames, routes, configuration and remembered node, and queue the same commands |
| `HubProofs.ConnectionDecidesCommands` | slimhub/ble/device_session.py:187-211 | two runs of one connection notified the same bytes queue the same commands, among any other calls, writes and failures, sightings of the same target included |
| `HubProofs.HubRunsEstimator` | slimhub/daemon.py:186-209 | over frames of any sessions and targets seen in between, the hub runs the estimator on the events of the frames: same remembered node, and the queue of every session, old or new, grows by exactly the commands that lead to it when dispatched, each once and in order |
| `HubProofs.SelectedAmong` | slimhub/daemon.py:199-208 | what a session is sent is an in-order, at-most-once selection of the estimator's commands |
| `HubProofs.SightingsCommandNothing` | slimhub/daemon.py:243-250 | targets seen between frames change no command and no remembered node, whatever they write into the configuration |
| `HubProofs.NoCommandLostIff` | slimhub/daemon.py:184-208 | every command of a run leads to a session when dispatched if and only if, at every step that commands something, the frame's MAC is a key or an alias by then or the frame came under a key |
| `HubProofs.EveryCommandQueuedIff` | slimhub/daemon.py:184-208 | exactly then every command of the run is newly queued on the session it leads to |
| `HubProofs.QueuedCommandsAddressSenders` | slimhub/daemon.py:199-208 | over frames of any sessions, every command newly queued on any session makes a valid command frame that opens with the MAC bytes of one of those frames |
| `WholeHub.SystemRunsHub` | slimhub/daemon.py:46-58 | in the whole system, sessions, waiting frames and daemon interleaved in any order, the daemon's part is a run of the hub |
| `WholeHub.StepKeepsAccount` | slimhub/ble/device_session.py:79-80 | after every step each session is a run from a new session and has accepted exactly what the daemon queued on it |
| `WholeHub.WrittenIsRouted` | slimhub/ble/device_session.py:213-231 | in every run of a new hub the commands routed to a session are, in order, those it finished, the one in flight and those queued; those it wrote are an in-order, at-most-once selection, each as its own frame |
| `WholeHubRouting.SoundForever` | slimhub/ble/central.py:31-46 | in every run of the whole system distinct keys hold distinct sessions with an address they can have, and every frame on its way came from a session of the registry |
| `WholeHubRouting.NoFrameRefused` | slimhub/daemon.py:184-185 | no frame that reaches the handler has an address it would refuse |
| `WholeHubRouting.EveryCommandAcceptedIff` | slimhub/daemon.py:199-208 | in the whole system every command is accepted by the session it leads to exactly under the condition of `NoCommandLostIff` |
| `WholeHubRouting.UnaliasedRunLosesNothing` | slimhub/ble/central.py:32-45 | and in particular in every run in which no target is seen under a node's alias |
| `FirstContact.HeardWhileSubscribed` | slimhub/ble/device_session.py:119-153 | a frame is heard exactly from the subscription on until the client is gone |
| `FirstContact.FirstExchange` | slimhub/daemon.py:184-208 | a node is seen, connected to and notifies an enter or exit frame: the hub writes back, over the same connection, the command with that frame's MAC bytes, byte by byte |

## Left out

- BLE scanning, connecting, notifying and writing: foreign library calls; they appear as inputs with every outcome.
- Cancellation of the session coroutine: nothing in the repository cancels it; only the shutdown of the event loop would.
- A `start` squeezed in between the end of a session coroutine and the resumption of the `stop` that waits for it: it would be forgotten by that `stop`.
- Session.DeviceSession.constructor: takes the normalized address as an argument, because a Dafny constructor cannot raise; `Session.DeviceSession.Create` normalizes it and raises as the source does.
- Hub.SlimHubDaemon.HandleFrame: asks for configuration records stored under their own address, and for writes that succeed when no logger runs; the same holds of the branches it calls.
- `last_seen`, log messages, `describe_frame`, `hex_dump`, `_log_commands`: presentation.
- The text of an alert: a lossy decoding of the payload, which the model keeps; the RAWDATA temperature stays the raw integer.
- RawLog.RawDataLogger.WriteEvent: a write that fails is taken to leave the file unchanged; in the source part of a header or row may have reached it.
- RawLog.RawDataLogger.WriteAlert: the same, for part of an alert's line.
- CSV quoting, row and alert formatting: a line of a file stands for the event it was made of.
- Paths that differ as `pathlib` values and still name one file: `..` components, symbolic links, file systems that ignore case. The date text of a timestamp is a parameter, used as one component.
- Configuration files that are malformed, or edited by hand so that record and file name differ.
- The socket server, JSON dispatch, CLI, hub configuration, `send_command` of the daemon, `ensure_address`, `stop_all`, `_devices_payload`: plumbing that would add only easy members.
- Liveness of reconnects and scan timing: they depend on the radio and the event loop.
