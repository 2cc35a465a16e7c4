# Verified models of the benchmarking agent

Dafny models of the parts of the benchmarking agent where ordering, partial failure or parsing is
subtle, with their main properties proved for all inputs, runs or reachable states. Check everything
with `dafny verify dfyconfig.toml`.

| file | models |
|---|---|
| `ChannelStream.dfy`, `StreamRuns.dfy`, `ApprovalGates.dfy`, `GateChannels.dfy`, `GateRuns.dfy` | the session channel as two transition systems: reconnect replay over a bounded ring, and approval gates over all channels in use, crashes and failed persists |
| `Channel.dfy` | the `Channel` and `Session` objects whose methods those systems step through |
| `TurnOwnership.dfy`, `TurnRuns.dfy`, `SessionServer.dfy` | who runs a session's turn and where mid-turn texts go; the objects and `finally` blocks behind it |
| `ToolDispatch.dfy` | matching dispatches to stashed tool-use ids under the tool lock |
| `RetryLoop.dfy`, `Checkpoint.dfy`, `SweepResume.dfy`, `SweepRuns.dfy` | one treatment's retries, the checkpoint ConfigMap, and a crash-and-resume sweep |
| `Constraints.dfy`, `TokenWalk.dfy`, `CommandPolicy.dfy` | the command policy: value constraints, scanner and walker, whole commands |
| `ParetoFrontier.dfy`, `Goodput.dfy` | frontier selection and goodput estimation |
| `RetentionGc.dfy`, `DoeExpand.dfy`, `LinePump.dfy`, `LineChunking.dfy`, `ConfigMerge.dfy`, `WsFrames.dfy` | retention selection, treatment matrices, the output pump, layered configuration, WebSocket frames |
| `Common.dfy`, `Numerals.dfy`, `Sorting.dfy` | shared datatypes, decimal numerals, a stable sort |

Asynchronous code is modelled as atomic steps between awaits; a `World` or `State` holds the program's
fields next to history that only the properties read. Code that updates objects or loops is a class or
a method proved equal to a specification function, and the properties are lemmas about that function.

## Where the code and its documentation part

- The reconnect property needs a connection to be alone only until its replay has *started*: a second
  attach before that misdirects the replay (`OverlappingAttach`), one after it is harmless, and other
  connections may overlap at any time (`ExactlyOnceReconnect`).
- A full replay is documented to show the in-flight turn; if a turn begins during the handshake it
  shows the ended one (`FullReplayTurn`, `StaleFullReplay`).
- An approval is documented to be idempotent and a restored gate to have lost its awaiter. A handler
  keeps its channel after the session has forgotten it, so without a crash one id can be accepted
  twice, with opposite values, exactly when a fresh channel restored it while another still had it
  (`SecondResolveIff`, `OldChannelResolves`). That needs a gate requested on a channel that is not the
  registered one, or the registered channel forgotten with gates open (`GoodRunsTidy`).
- A resolve that returned True is lost by a crash before the parked turn settles (`LostAcceptance`); a
  closed gate of an id that was never doubled comes back only after a failed persist (`CrashRevives`).
- "The cancel must win" fails for a cancel that lands while an error is being reported
  (`CancelWins`, `CancelDuringReport`), and a text is lost, reaching neither a query nor a
  `finally`, exactly when a cancel meets a turn before its first tick (`UnstartedIff`); for a follow-up
  turn these are the steers handed to it (`UnstartedLoss`).
- Parsing a checkpoint is documented never to raise; it raises on exactly two corrupt shapes
  (`ParseFailsExactlyOn`).
- Two attempts of a run can be live at once exactly when timeouts are made retryable (`NoTwoLive`,
  `OverlapIfTimeoutRetried`).
- A value exhausts the interpreter's stack exactly when following the alternatives tried for it meets a
  constraint twice before one accepts (`OverflowsIff`); the depth limit of eight covers references only
  (`ResolvesIff`, `EndlessReferenceRejected`).
- A read-only trigger standing as another flag's value counts in an outer region and not in the leaf
  region (`TriggerInValuePosition`).
- Goodput can stay below the fraction of a met percentile when reported percentiles tie
  (`MetImpliesGoodputIff`).
- How a child's output is cut into reads shows in overlong lines, and exactly in those whose length
  exceeds a multiple of the cap by less than a read (`ChunkingIrrelevantIff`); the runner reads 65,536
  bytes at a time under a cap of 200,000 characters.
- The runner's captured text is called a tail; the code keeps the head (`CapturedIsBoundedHead`).
- A null `huggingface_id` counts as given, so a `model` override then leaves the id at the spec's
  default (`ModelSetsId`).
- A fragmented binary message reaches the chat probe as a text without its first fragment
  (`TextsExactlyIff`).

## Model

| member | source | states |
|---|---|---|
| `StreamRuns.ExactlyOnceReconnect` | llm-d-benchmarking-agent-project/app/agent/channel.py:68-204 | In every run of emits, evictions, turn boundaries, attaches and detaches that leaves this connection alone between its attach and the start of its replay, the others overlapping as they like: if it attached incrementally with cursor `a` and finished its replay, it was sent each non-approval turn frame with seq > `a` exactly once, up to the moment another socket took over, and no frame it already had |
| `StreamRuns.ReconnectTraffic` | llm-d-benchmarking-agent-project/app/main.py:642-657 | Its catch-up frames are the missed tail in order and its live frames the rest of the stream in order: order holds within each half |
| `StreamRuns.IncrementalIff` | llm-d-benchmarking-agent-project/app/main.py:803-807 | Over every run, for every connection: its attach is incremental if and only if it sent a cursor, a frame of the turn is buffered, the cursor lies between the turn's start and the head, and no more frames were missed than the ring holds |
| `StreamRuns.InFlightReplayed` | llm-d-benchmarking-agent-project/app/agent/channel.py:146-204 | A connection left alone in its handshake that is not incremental and attached in the turn still in flight is sent, as catch-up, exactly the turn's retained frames, gates excepted, in order |
| `StreamRuns.IdleReplaysNothing` | llm-d-benchmarking-agent-project/app/agent/channel.py:146-204 | Attached to an idle channel and not incremental, it is sent nothing of the ended turn as long as no turn begins |
| `StreamRuns.RingIsTurnTail` | llm-d-benchmarking-agent-project/app/agent/channel.py:120-144 | In every reachable state, however attaches overlap, the ring is contiguous, ends at the sequence head, and is the current turn's latest `buffer_max` frames |
| `StreamRuns.RunKeepsBase` | llm-d-benchmarking-agent-project/app/agent/channel.py:68-204 | Ring, log and every connection's snapshot and cursor stay in order along every run, however attaches overlap |
| `StreamRuns.RunKeepsInv` | llm-d-benchmarking-agent-project/app/agent/channel.py:68-204 | What connection `i` was sent and is about to be sent stays in order along every run that leaves connection `i` alone during its handshake |
| `ChannelStream.AttachKeeps` | llm-d-benchmarking-agent-project/app/main.py:642-657 | Taking socket, cutoff and snapshot in one step establishes the new connection's invariant and keeps another's that is past its handshake |
| `ChannelStream.ReplayNextKeeps` | llm-d-benchmarking-agent-project/app/agent/channel.py:146-204 | Each send of a replay loop keeps it, whatever was emitted live in between and whoever replays |
| `StreamRuns.MissedTail` | llm-d-benchmarking-agent-project/app/main.py:803-808 | The window test is right: when it passes, the snapshot's due frames are exactly the non-approval frames after the cursor |
| `StreamRuns.FullReplayTurn` | llm-d-benchmarking-agent-project/app/main.py:872-875 | In every run, what a full replay sends is of the current turn if no turn began since the attach, and otherwise only of ended turns |
| `StreamRuns.StaleFullReplay` | llm-d-benchmarking-agent-project/app/main.py:872-879 | A run in which the second case happens, so the documented "replays the in-flight turn" fails |
| `StreamRuns.OverlappingAttach` | llm-d-benchmarking-agent-project/app/main.py:642-657 | A run in which a second attach falls into the first one's handshake, and the missed frame goes to the other socket: the hypothesis of the main property is needed |
| `ChannelObject.Channel.constructor` | llm-d-benchmarking-agent-project/app/agent/channel.py:47-66 | A fresh channel: no socket, no gates, empty ring, sequence 0 |
| `ChannelObject.Channel.BeginTurn` | llm-d-benchmarking-agent-project/app/agent/channel.py:68-79 | Clears the ring, marks a turn active, keeps the sequence |
| `ChannelObject.Channel.EndTurn` | llm-d-benchmarking-agent-project/app/agent/channel.py:81-87 | Keeps the ring |
| `ChannelObject.Channel.Emit` | llm-d-benchmarking-agent-project/app/agent/channel.py:120-144 | Stamps and buffers exactly the turn events, evicts the oldest, and offers the frame to the attached socket: the stream step of the model |
| `ChannelObject.Channel.Attach` | llm-d-benchmarking-agent-project/app/main.py:642-657 | Cutoff, snapshot and window verdict all describe the state at the attach |
| `ChannelObject.Channel.ReplayLive` | llm-d-benchmarking-agent-project/app/agent/channel.py:146-204 | An undisturbed replay sends, in order, the wanted frames of the snapshot or else of the ring, with or without cursor and cutoff |
| `GateRuns.GatesConsistent` | llm-d-benchmarking-agent-project/app/agent/channel.py:206-344 | Over every run with any number of channels in use: each decision is an auto-approval or the value of a resolve that returned True; an id never restored while another channel has it is on at most one channel, in flight while it is, and over all decisions ever recorded decided once and not in flight afterwards, unless a crash revived it |
| `GateRuns.QuestionSurvives` | llm-d-benchmarking-agent-project/app/agent/channel.py:206-344 | Whatever follows a request, crashes, restores and doubled ids included, every gate, in-flight entry and decision of its id carries the kind, payload and tool call that were asked for |
| `GateChannels.StepAsks` | llm-d-benchmarking-agent-project/app/agent/channel.py:206-344 | Every step keeps that |
| `GateRuns.LatestDecisionsKept` | llm-d-benchmarking-agent-project/app/agent/session.py:72-77 | Between crashes the bounded list holds the latest 500 of what it held and of what was decided since |
| `GateChannels.AcceptedIff` | llm-d-benchmarking-agent-project/app/agent/channel.py:323-332 | A resolve is accepted on a channel if and only if the id is pending there without a verdict, its awaiter lost or not; one that is not accepted changes nothing |
| `ApprovalGates.ClearedAre` | llm-d-benchmarking-agent-project/app/agent/session.py:219-233 | Clearing an id keeps exactly the well-formed entries of the other ids, each as often as it was listed |
| `GateRuns.SecondResolveIff` | llm-d-benchmarking-agent-project/app/main.py:631-642 | Without a crash, resolves can make an id accept a second time at some point of a run if and only if a fresh channel restored it while another channel still had it |
| `GateRuns.OldChannelResolves` | llm-d-benchmarking-agent-project/app/main.py:1019-1030 | From any loaded idle session there is such a run: a socket leaves, its channel is forgotten while another handler keeps it, and one id is recorded as approved on the old channel and declined on the new one, with no crash and every persist landing |
| `GateRuns.GoodRunsTidy` | llm-d-benchmarking-agent-project/app/main.py:631-645 | If gates are requested on the registered channel only, and that channel is not forgotten while it has gates, then no id is ever doubled, the registered channel has exactly the in-flight gates and the others none |
| `GateRuns.GoodRunsAcceptOnce` | llm-d-benchmarking-agent-project/app/agent/channel.py:206-344 | In a crashless run of that kind no id is accepted or decided twice, nor could resolves make it so at any point |
| `GateChannels.DoubledAccepts` | llm-d-benchmarking-agent-project/app/agent/channel.py:323-344 | Once restored beside another copy an undecided id accepts on both channels with opposite values, and an accepted one accepts again |
| `GateChannels.ResolveIsResolve` | llm-d-benchmarking-agent-project/app/agent/channel.py:323-344 | A resolve on one channel leaves there, and in the session, what the method leaves, and the other channels alone |
| `GateRuns.OneAcceptedResolve` | llm-d-benchmarking-agent-project/app/agent/channel.py:323-344 | For an id never restored while another channel has it, at most one resolve returns True, unless a crash fell between an accepted resolve and its recording |
| `GateRuns.LostAcceptance` | llm-d-benchmarking-agent-project/app/agent/channel.py:206-253 | That exception is real: a gate accepted but unsettled at a crash accepts a second resolve |
| `GateRuns.ClosedStaysClosed` | llm-d-benchmarking-agent-project/app/agent/channel.py:206-344 | While persists reach the disk, crashes included, a decided or cancelled id that was never restored beside another copy is pending on no channel and not in flight |
| `GateRuns.CrashRevives` | llm-d-benchmarking-agent-project/app/agent/session.py:235-288 | After a crash and a reopen exactly the ids that the disk still lists accept a resolve; a closed id is not among them when the last persist reached the disk |
| `GateRuns.AcceptsAgainIff` | llm-d-benchmarking-agent-project/app/agent/session.py:235-288 | An id whose resolve was accepted accepts another one after a crash exactly when the disk still lists it |
| `GateRuns.RunKeepsHonest` | llm-d-benchmarking-agent-project/app/agent/channel.py:206-344 | However channels are used, verdicts and decisions have an accepted resolve behind them along every run |
| `GateChannels.StepKeepsHonest` | llm-d-benchmarking-agent-project/app/agent/channel.py:206-344 | and along every step |
| `ApprovalGates.DeclinedExact` | llm-d-benchmarking-agent-project/app/main.py:926-949 | Declining a list of gates: undecided restored ones leave pending and in-flight lists and are recorded as declined, in order; parked ones hold their first verdict or False; nothing else changes |
| `GateRuns.NoCrashNoLoss` | llm-d-benchmarking-agent-project/app/agent/channel.py:206-344 | Without a crash an id never restored beside another copy is accepted once, decided once, and once closed is on no channel and not in flight |
| `ApprovalGates.RestoreKeys` | llm-d-benchmarking-agent-project/app/agent/channel.py:255-296 | Restoring brings back exactly the well-formed in-flight ids, next to what was pending |
| `ApprovalGates.RecordKeeps` | llm-d-benchmarking-agent-project/app/agent/session.py:72-77 | The bounded decision list keeps each id decided once when it evicts |
| `GateChannels.StepKeepsInv` | llm-d-benchmarking-agent-project/app/agent/channel.py:206-344 | Every step of every channel (request, resolve, settle, cancel, forget, restore, crash, each with its persists landing or not) keeps the invariant of every id, but for a restore of an id that another channel has |
| `GateRuns.RunKeepsInv` | llm-d-benchmarking-agent-project/app/agent/channel.py:206-344 | So does every run in which the id is never doubled |
| `ChannelObject.Session.RecordApproval` | llm-d-benchmarking-agent-project/app/agent/session.py:186-187 | Bounded append of the decision |
| `ChannelObject.Session.RecordInFlight` | llm-d-benchmarking-agent-project/app/agent/session.py:203-217 | At most one entry per request id |
| `ChannelObject.Session.ClearInFlight` | llm-d-benchmarking-agent-project/app/agent/session.py:219-233 | Removes every entry of the id and every malformed one |
| `ChannelObject.Channel.RequestApproval` | llm-d-benchmarking-agent-project/app/agent/channel.py:206-232 | Either the auto-approval is recorded or the gate is opened in both places |
| `ChannelObject.Channel.Settle` | llm-d-benchmarking-agent-project/app/agent/channel.py:233-253 | The gate leaves both places; a verdict is recorded, a cancel is not |
| `ChannelObject.Channel.RestorePending` | llm-d-benchmarking-agent-project/app/agent/channel.py:255-296 | The loop is the specified restore: malformed entries skipped, existing gates kept, new ones in list order |
| `ChannelObject.Channel.ReemitPending` | llm-d-benchmarking-agent-project/app/agent/channel.py:298-321 | One card for each pending gate, oldest first, with its id, kind and payload |
| `ChannelObject.Channel.Resolve` | llm-d-benchmarking-agent-project/app/agent/channel.py:323-344 | Returns True exactly for a known undecided gate; a restored gate is recorded and dropped at once |
| `ChannelObject.Channel.DeclineAll` | llm-d-benchmarking-agent-project/app/main.py:926-949 | Declines every open gate, oldest first: pending gates, in-flight list and decisions are those of the specified round |
| `TurnRuns.SingleTurn` | llm-d-benchmarking-agent-project/app/main.py:926-967 | Over all interleavings at most one turn is not done, `running` and the registry point to it, and the handler's busy test is true exactly then |
| `TurnRuns.SteersConserved` | llm-d-benchmarking-agent-project/app/main.py:618-626 | Every text sent is handed over, held by the turn about to start, queued, dropped by a cancelled turn, or went with an unstarted one: exactly one of these; texts of one queue reach the transcript in order |
| `TurnRuns.MessageStartsTurn` | llm-d-benchmarking-agent-project/app/main.py:958-967 | In every reachable state in which no turn is alive a message starts one: alive, in both slots, holding exactly the new text, with the queues unchanged |
| `TurnRuns.MessageSteers` | llm-d-benchmarking-agent-project/app/main.py:946-957 | While a turn is alive a message starts none: its text goes last into the live queue between registration and deregistration, and last into the legacy list otherwise |
| `TurnRuns.DrainTakesAll` | llm-d-benchmarking-agent-project/app/agent/engine.py:407-417 | A drain hands over everything queued, live texts first, and leaves nothing; the loop goes on exactly if something was queued |
| `TurnRuns.UnregisterHandsBack` | llm-d-benchmarking-agent-project/app/agent/engine.py:295-311 | A turn that stops driving hands its undelivered queue back in front of the legacy list |
| `TurnRuns.FinishFollows` | llm-d-benchmarking-agent-project/app/main.py:755-775 | A turn that was not cancelled leaves the queued texts to an alive follow-up turn if a socket is attached and to the queue if not; with nothing queued no turn follows |
| `TurnRuns.CancelStops` | llm-d-benchmarking-agent-project/app/agent/lifecycle.py:92-107 | Once a cancel was delivered to a turn, whatever follows, it never starts, registers or queries again |
| `TurnRuns.NoCancelNoLoss` | llm-d-benchmarking-agent-project/app/main.py:737-775 | Without a cancel nothing is dropped |
| `TurnRuns.CancelWins` | llm-d-benchmarking-agent-project/app/main.py:737-775 | A turn that a cancel hit starts a follow-up exactly when it was reporting an error with texts queued and a socket attached |
| `TurnRuns.CancelDuringReport` | llm-d-benchmarking-agent-project/app/main.py:661-736 | That case is reachable from an idle session |
| `TurnRuns.UnstartedIff` | llm-d-benchmarking-agent-project/app/agent/lifecycle.py:92-107 | Over every run from a fresh session: a text reaches neither a query nor a cancelled turn's `finally` if and only if some cancel meets a task before its first tick |
| `TurnRuns.UnstartedLoss` | llm-d-benchmarking-agent-project/app/main.py:764-771 | Such a cancel of a follow-up turn loses exactly the steers handed to it |
| `TurnRuns.TranscriptOrdered` | llm-d-benchmarking-agent-project/app/agent/engine.py:407-417 | Order within a queue survives draining and hand-back |
| `TurnOwnership.StepKeepsInv` | llm-d-benchmarking-agent-project/app/main.py:661-775 | Every step of handlers, engine, cancel and `finally` keeps control and text invariants |
| `TurnRuns.RunKeepsInv` | llm-d-benchmarking-agent-project/app/main.py:661-775 | So does every run |
| `SessionServer.LiveTurn.Steer` | llm-d-benchmarking-agent-project/app/agent/engine.py:106-107 | Appends to the live queue |
| `SessionServer.LiveTurn.DrainSteers` | llm-d-benchmarking-agent-project/app/agent/engine.py:109-115 | Returns live steers, then legacy ones, and empties both |
| `SessionServer.RunRegistry.Register` | llm-d-benchmarking-agent-project/app/agent/lifecycle.py:69-74 | The session's handle is replaced |
| `SessionServer.RunRegistry.Forget` | llm-d-benchmarking-agent-project/app/agent/lifecycle.py:76-82 | Only a handle of this very turn is dropped |
| `SessionServer.Session.QueueSteer` | llm-d-benchmarking-agent-project/app/main.py:618-626 | Live queue if a live turn is registered, else the legacy list |
| `SessionServer.Session.Launch` | llm-d-benchmarking-agent-project/app/main.py:958-967 | A new turn takes the slot and the registry |
| `SessionServer.Session.UserMessage` | llm-d-benchmarking-agent-project/app/main.py:926-967 | The whole branch, open gates included, is one step of the transition system and one round of declining |
| `SessionServer.Session.Release` | llm-d-benchmarking-agent-project/app/main.py:737-759 | Gives up exactly the slots this turn holds |
| `SessionServer.Session.Leftover` | llm-d-benchmarking-agent-project/app/main.py:760-775 | Drops, relaunches or keeps the leftover steers |
| `SessionServer.Session.DrainPoint` | llm-d-benchmarking-agent-project/app/agent/engine.py:407-417 | The drain point is one step: everything queued is handed over, in order, or the loop ends |
| `SessionServer.Session.EngineFinally` | llm-d-benchmarking-agent-project/app/agent/engine.py:295-311 | Undelivered steers go in front of the legacy list |
| `SessionServer.Session.TurnFinally` | llm-d-benchmarking-agent-project/app/main.py:737-775 | Both together are one step of the transition system |
| `ToolDispatch.ServedInStashOrder` | llm-d-benchmarking-agent-project/app/agent/engine.py:117-140 | Under every interleaving the calls of one name and arguments are served ids stashed for them, in stash order, and a running call finds its own id in the slot |
| `ToolDispatch.NoIdTwice` | llm-d-benchmarking-agent-project/app/tools/mcp_server.py:82-121 | With distinct ids none is handed out twice |
| `ToolDispatch.TakesOwn` | llm-d-benchmarking-agent-project/app/agent/engine.py:121-140 | When a call was stashed before its dispatch, the id taken was stashed with its own arguments |
| `ToolDispatch.TakesOwnArgs` | llm-d-benchmarking-agent-project/app/agent/engine.py:121-140 | A take answers with equal arguments if and only if such an entry is pending |
| `ToolDispatch.TakesOldest` | llm-d-benchmarking-agent-project/app/agent/engine.py:122-140 | The entry served is the oldest with the dispatch's own arguments if there is one, else the oldest |
| `ToolDispatch.StepKeepsInv` | llm-d-benchmarking-agent-project/app/tools/mcp_server.py:82-121 | Stash, lock, slot and release keep the order of every call class and the slot's owner |
| `ToolDispatch.RunKeepsInv` | llm-d-benchmarking-agent-project/app/tools/mcp_server.py:82-121 | So does every run |
| `ToolDispatch.PendingIds.Stash` | llm-d-benchmarking-agent-project/app/agent/engine.py:117-119 | Appends to the name's queue |
| `ToolDispatch.PendingIds.Take` | llm-d-benchmarking-agent-project/app/agent/engine.py:121-140 | Serves the position the specification names and removes it, or reports that none is pending |
| `RetryLoop.RetryBudget` | llm-d-benchmarking-agent-project/app/orchestrator/controller.py:280-346 | For any cluster: at most `max_attempts` attempts with distinct ids, all but the last ending in a retryable fault, and exactly one of succeeded and dead-lettered |
| `RetryLoop.NoTwoLive` | llm-d-benchmarking-agent-project/app/orchestrator/controller.py:299-331 | With truthful reads and timeouts not retried, at no moment are two attempts of the run live |
| `RetryLoop.OverlapIfTimeoutRetried` | llm-d-benchmarking-agent-project/app/orchestrator/controller.py:320-327 | With timeouts retried, any budget of two or more admits a truthful history with two attempts live at one moment |
| `RetryLoop.DefaultNeverOverlaps` | llm-d-benchmarking-agent-project/app/orchestrator/controller.py:280-294 | The default retryable set never overlaps |
| `RetryLoop.DefaultRetries` | llm-d-benchmarking-agent-project/app/orchestrator/controller.py:53 | With the default set an attempt is retried if and only if its Job vanished, or failed by an eviction or for an unknown reason |
| `RetryLoop.Watch` | llm-d-benchmarking-agent-project/app/orchestrator/controller.py:148-177 | Returns what the first stopping poll saw: terminal, vanished after having existed, or late |
| `RetryLoop.RunWithRetries` | llm-d-benchmarking-agent-project/app/orchestrator/controller.py:299-346 | The loop computes the specified run and submits exactly the counted attempts, non-positive budgets included |
| `RetryLoop.CountIs` | llm-d-benchmarking-agent-project/app/orchestrator/controller.py:299-331 | The number of attempts is determined by: all before it retried, it not retried or the budget spent |
| `Checkpoint.ParseInvertsManifest` | llm-d-benchmarking-agent-project/app/orchestrator/checkpoint.py:135-178 | Parsing the rendered ConfigMap gives back every checkpoint keyed by run id, order included |
| `Checkpoint.ParseFailsExactlyOn` | llm-d-benchmarking-agent-project/app/orchestrator/checkpoint.py:154-178 | Parsing raises exactly on two corrupt shapes, against the documented "never an error" |
| `Checkpoint.ParsedIsKeyed` | llm-d-benchmarking-agent-project/app/orchestrator/checkpoint.py:116-132 | Whatever is parsed is keyed by run id |
| `Checkpoint.KeptIff` | llm-d-benchmarking-agent-project/app/orchestrator/checkpoint.py:116-133 | An element is kept if and only if it is a mapping with a string id and one of the two states, and as exactly those facts |
| `Checkpoint.FromItemsKeyed` | llm-d-benchmarking-agent-project/app/orchestrator/checkpoint.py:116-132 | The same for any list of treatment documents |
| `Checkpoint.PutGet` | llm-d-benchmarking-agent-project/app/orchestrator/checkpoint.py:92-106 | Dict assignment: the key reads the new record, others are unchanged, keys stay distinct |
| `Checkpoint.FromItemsLoop` | llm-d-benchmarking-agent-project/app/orchestrator/checkpoint.py:116-132 | The loop skips malformed elements and keeps the last record of a repeated id |
| `Checkpoint.SweepCheckpoint.RecordInFlight` | llm-d-benchmarking-agent-project/app/orchestrator/checkpoint.py:92-97 | Never downgrades a completed record |
| `Checkpoint.SweepCheckpoint.RecordCompleted` | llm-d-benchmarking-agent-project/app/orchestrator/checkpoint.py:99-106 | Completes this record and leaves the others |
| `SweepRuns.DurableNeverShrinks` | llm-d-benchmarking-agent-project/app/orchestrator/controller.py:382-476 | Over any run with lost writes and crashes the durable completed records stay, unchanged |
| `SweepRuns.CompletedNeverResubmitted` | llm-d-benchmarking-agent-project/app/orchestrator/controller.py:382-476 | A durably completed treatment is never submitted again |
| `SweepRuns.LaterSweepsAgree` | llm-d-benchmarking-agent-project/app/orchestrator/controller.py:103-119 | Every later finished sweep reports it with the same facts |
| `SweepRuns.GatherReportsAll` | llm-d-benchmarking-agent-project/app/orchestrator/controller.py:461-476 | A finished sweep reports exactly one outcome a spec, in spec order: the facts of the completed record that the loaded checkpoint had, else what the treatment's own Jobs came to; and each is what the checkpoint says now |
| `SweepResume.ReportIsToldByJobs` | llm-d-benchmarking-agent-project/app/orchestrator/controller.py:299-335 | The report of a treatment told by its Jobs: the deciding attempt is the first that is not retried or spends the budget, as many Jobs are submitted, and its end alone gives success, dead letter and fault name, `unknown` for a vanished Job or an escaping exception, `timeout` for one still running |
| `SweepResume.SucceededIff` | llm-d-benchmarking-agent-project/app/orchestrator/controller.py:310-335 | Succeeded if and only if some attempt within the budget ended Succeeded and every one before it in a retried fault; dead-lettered otherwise |
| `SweepRuns.SubmittedIsRecorded` | llm-d-benchmarking-agent-project/app/orchestrator/controller.py:415-450 | If every write lands, a treatment of which a Job was ever submitted is in the durable checkpoint from then on |
| `SweepRuns.GatheredCost` | llm-d-benchmarking-agent-project/app/orchestrator/controller.py:299-335 | By the time a sweep gathers, each treatment it had to run cost it exactly the Jobs up to its deciding attempt |
| `SweepRuns.ParallelismWithin` | llm-d-benchmarking-agent-project/app/orchestrator/controller.py:380-447 | During a sweep asked for `max_parallel` at most max(1, max_parallel) treatments are between their start and their recorded end |
| `SweepResume.ReportSurvives` | llm-d-benchmarking-agent-project/app/orchestrator/controller.py:103-119 | Reading a record back gives the outcome that wrote it |
| `SweepRuns.ParallelismBounded` | llm-d-benchmarking-agent-project/app/orchestrator/controller.py:382-396 | At most max(1, max_parallel) treatments are inside the semaphore |
| `SweepResume.StepKeepsInv` | llm-d-benchmarking-agent-project/app/orchestrator/controller.py:397-476 | Each step keeps the invariant and loses no durable record |
| `SweepResume.WriteKeeps` | llm-d-benchmarking-agent-project/app/orchestrator/controller.py:397-431 | A write that lands or not leaves a well-formed document that extends the old one |
| `SweepResume.MergeOutcomes` | llm-d-benchmarking-agent-project/app/orchestrator/controller.py:456-476 | Prior and new outcomes merged by id, in spec order |
| `Constraints.OverflowsIff` | llm-d-benchmarking-agent-project/app/security/_validator.py:220-269 | For every value: the check overflows at every stack depth if and only if following the alternatives tried for it, those with only acyclic, non-accepting ones in front, meets a constraint twice; the number of constraints is a sufficient depth to tell |
| `Constraints.AnswersIff` | llm-d-benchmarking-agent-project/app/security/_validator.py:220-269 | A value that does not overflow so is accepted at some depth if and only if some offered leaf accepts it, and rejected at some depth if and only if none does |
| `Constraints.OverflowsIffCyclic` | llm-d-benchmarking-agent-project/app/security/_validator.py:220-269 | A value that no offered leaf accepts is rejected at some stack depth if following alternatives from the constraint meets none twice, and overflows at every depth if it does |
| `Constraints.AcyclicAnswers` | llm-d-benchmarking-agent-project/app/security/_validator.py:220-269 | Without such a cycle every value gets a verdict, and a stack as deep as the number of constraints suffices; cycles of plain references do not matter |
| `Constraints.FailsIff` | llm-d-benchmarking-agent-project/app/security/_validator.py:220-269 | A value is rejected within n nested calls if and only if no offered leaf accepts it and alternations end within n |
| `Constraints.GroundedIffAcyclic` | llm-d-benchmarking-agent-project/app/security/_validator.py:220-269 | Alternations end at some depth, and then within the number of constraints, if and only if there is no cycle |
| `Constraints.EndlessReferenceRejected` | llm-d-benchmarking-agent-project/app/security/_validator.py:260-269 | References that only lead to one another, a reference to itself included, are rejected by the depth limit |
| `Constraints.ResolvesIff` | llm-d-benchmarking-agent-project/app/security/_validator.py:260-269 | A reference resolves to a constraint if and only if at most eight existing links lead to it |
| `Constraints.MoreStackSameVerdict` | llm-d-benchmarking-agent-project/app/security/_validator.py:220-269 | More stack never changes a verdict that was given |
| `Constraints.CycleOverflows` | llm-d-benchmarking-agent-project/app/security/_validator.py:220-238 | With any cycle of alternations, a value that no offered leaf accepts overflows at any depth |
| `Constraints.CheckMeaning` | llm-d-benchmarking-agent-project/app/security/_validator.py:220-258 | A verdict is Pass if and only if some leaf reachable by alternation and reference accepts the value |
| `Constraints.LeafVerdicts` | llm-d-benchmarking-agent-project/app/security/_validator.py:220-258 | What each kind of leaf passes: an enumeration its members, a pattern its full matches, a catalog its entries and without a catalog everything, an absent constraint everything, an unrecognised one nothing |
| `Constraints.ChainLimit` | llm-d-benchmarking-agent-project/app/security/_validator.py:260-269 | A reference chain resolves exactly when it has at most eight links |
| `TokenWalk.FindSubcommandIndex` | llm-d-benchmarking-agent-project/app/security/_validator.py:118-133 | The scan loop finds the specified index |
| `TokenWalk.WalkTokens` | llm-d-benchmarking-agent-project/app/security/_validator.py:135-213 | The walk loop, with its stack of specs and two flags, computes the specified outcome |
| `TokenWalk.RegionHasTrigger` | llm-d-benchmarking-agent-project/app/security/_validator.py:215-217 | True exactly if some option token is a trigger of the table |
| `TokenWalk.ScannerWalkerPath` | llm-d-benchmarking-agent-project/app/security/_validator.py:85-133 | Whenever the scanner finds a token, the walker visits exactly the scanner's positions before it, all of them options |
| `TokenWalk.ScannerWalkerAgree` | llm-d-benchmarking-agent-project/app/security/_validator.py:85-182 | So it meets no positional, runs out of no value, and allows if and only if every declared value passes |
| `TokenWalk.NoTokenSameStops` | llm-d-benchmarking-agent-project/app/security/policy.py:212-220 | Without a subcommand token the two agree on the whole command |
| `TokenWalk.WalkExact` | llm-d-benchmarking-agent-project/app/security/_validator.py:153-213 | A region is allowed if and only if every declared flag has a passing value and the positionals match declaratively; the mode is read-only exactly when the base is or a trigger was met |
| `TokenWalk.SpecBehindRepeatedStarves` | llm-d-benchmarking-agent-project/app/security/policy.py:105-120 | Without the load-time rule a required spec behind a repeated one rejects every command |
| `TokenWalk.ValidatePositionalList` | llm-d-benchmarking-agent-project/app/security/policy.py:105-120 | The load check accepts exactly the lists whose only repeated spec is last |
| `TokenWalk.WalkNeutral` | llm-d-benchmarking-agent-project/app/security/_validator.py:156-172 | Inserting an undeclared `--x=v` at a walked boundary changes neither verdict, reason nor mode of a region |
| `TokenWalk.PairNeutral` | llm-d-benchmarking-agent-project/app/security/_validator.py:158-172 | An undeclared option without `=` takes the following non-option token with it: inserting the pair at a walked boundary changes neither verdict, reason nor mode |
| `TokenWalk.ScanNeutral` | llm-d-benchmarking-agent-project/app/security/_validator.py:118-133 | It moves the scanned index by one |
| `CommandPolicy.DecideExact` | llm-d-benchmarking-agent-project/app/security/_validator.py:49-217 | On a policy that loads, a command is allowed if and only if its tokens are clean, it routes to a leaf, all regions' values pass and the leaf's positionals match; it is read-only exactly by leaf mode, a trigger at flag position in the leaf, or a trigger token of its own table in an outer region |
| `CommandPolicy.ScreensExact` | llm-d-benchmarking-agent-project/app/security/policy.py:176-190 | Each screen in front of the walk rejects exactly what it is for: no tokens, a token with a shell character, an unknown executable |
| `CommandPolicy.CleanIff` | llm-d-benchmarking-agent-project/app/security/policy.py:38 | A token is clean if and only if none of the 23 shell characters occurs in it |
| `CommandPolicy.SubExact` | llm-d-benchmarking-agent-project/app/security/_validator.py:49-116 | The same for a subcommand at any nesting depth |
| `CommandPolicy.UndeclaredOptionNeutral` | llm-d-benchmarking-agent-project/app/security/policy.py:169-241 | Inserting an undeclared, clean `--x=v` at any boundary that validation visits changes nothing, at every level |
| `CommandPolicy.SubNeutral` | llm-d-benchmarking-agent-project/app/security/_validator.py:49-116 | The same below a matched subcommand |
| `CommandPolicy.TriggerInValuePosition` | llm-d-benchmarking-agent-project/app/security/_validator.py:150-152 | A mutating subcommand is allowed as read-only when a trigger's token stands as another flag's value before it, and as mutating when it stands so behind it |
| `CommandPolicy.DecideAnswers` | llm-d-benchmarking-agent-project/app/security/policy.py:192-241 | If every constraint answers within the stack, validation always ends in a verdict |
| `CommandPolicy.Validate` | llm-d-benchmarking-agent-project/app/security/policy.py:169-241 | The validation method computes the specified decision, first failure first |
| `ParetoFrontier.DominanceTransitive` | llm-d-benchmarking-agent-project/app/validation/analysis.py:363-386 | Dominance is transitive |
| `ParetoFrontier.DominanceIrreflexive` | llm-d-benchmarking-agent-project/app/validation/analysis.py:363-386 | and irreflexive, so a strict partial order |
| `ParetoFrontier.DominatesIff` | llm-d-benchmarking-agent-project/app/validation/analysis.py:362-386 | One run dominates another if and only if both carry every deciding objective, it is no higher where lower is better and no lower where higher is better, and strictly better somewhere |
| `ParetoFrontier.ImprovingStays` | llm-d-benchmarking-agent-project/app/validation/analysis.py:362-386 | Making a frontier run better on one objective keeps it on the frontier |
| `ParetoFrontier.CheckDominates` | llm-d-benchmarking-agent-project/app/validation/analysis.py:363-386 | The loop decides: no worse on every deciding axis, better on one, all axes present on both |
| `ParetoFrontier.FrontierLabels` | llm-d-benchmarking-agent-project/app/validation/analysis.py:521-530 | The loop returns the labels of exactly the placeable undominated runs, in order |
| `ParetoFrontier.FrontierMembers` | llm-d-benchmarking-agent-project/app/validation/analysis.py:521-530 | A run is on the frontier if and only if it is placeable and undominated |
| `ParetoFrontier.FrontierInSweepOrder` | llm-d-benchmarking-agent-project/app/validation/analysis.py:521-530 | The frontier lists runs in sweep order, none twice |
| `ParetoFrontier.NoneDominated` | llm-d-benchmarking-agent-project/app/validation/analysis.py:521-530 | No frontier run is dominated by any run |
| `ParetoFrontier.DominatedFromFrontier` | llm-d-benchmarking-agent-project/app/validation/analysis.py:521-530 | Every placeable run off the frontier is dominated by one on it |
| `ParetoFrontier.FrontierEmptyIff` | llm-d-benchmarking-agent-project/app/validation/analysis.py:521-530 | The frontier is empty if and only if no run is placeable |
| `ParetoFrontier.FeasibleStays` | llm-d-benchmarking-agent-project/app/validation/analysis.py:502-513 | A feasible run on the full frontier is on the SLO frontier |
| `ParetoFrontier.DegenerateIff` | llm-d-benchmarking-agent-project/app/validation/analysis.py:466-469 | Frontier and placeable counts agree if and only if no placeable run is dominated |
| `ParetoFrontier.DegenerateMeans` | llm-d-benchmarking-agent-project/app/validation/analysis.py:467-500 | The degenerate flag means that two runs can be placed and no placeable run is dominated |
| `ParetoFrontier.DecidingAre` | llm-d-benchmarking-agent-project/app/validation/analysis.py:430-434 | The deciding axes are those of the first objective of each family that two runs report, each in its own direction |
| `ParetoFrontier.OneSeatPerFamily` | llm-d-benchmarking-agent-project/app/validation/analysis.py:413-439 | Each family with a comparable objective has exactly one deciding objective |
| `ParetoFrontier.SelectObjectives` | llm-d-benchmarking-agent-project/app/validation/analysis.py:413-439 | Points carry exactly the objectives present in two or more runs; deciding axes are the first of each family |
| `ParetoFrontier.Analyse` | llm-d-benchmarking-agent-project/app/validation/analysis.py:407-518 | Frontier, degeneracy flags and SLO frontier are those of the selected points |
| `ParetoFrontier.ReportedOnFrontier` | llm-d-benchmarking-agent-project/app/validation/analysis.py:471-477 | With distinct labels `on_frontier` is true exactly for frontier runs |
| `Goodput.ReportGoodput` | llm-d-benchmarking-agent-project/app/validation/analysis.py:133-167 | For percentiles that never fall, goodput is monotone in the target and lies in [0, 0.999] |
| `Goodput.ReportAgrees` | llm-d-benchmarking-agent-project/app/validation/analysis.py:133-167 | For strictly increasing percentiles, meeting the SLO at p gives goodput >= fraction(p), and goodput > fraction(p) means it is met |
| `Goodput.JudgedAgrees` | llm-d-benchmarking-agent-project/app/validation/analysis.py:182-200 | For SLOs judged at percentile p of strictly increasing reports: if all verdicts are met the combined goodput is at least p's fraction, and if it is above that fraction all are met |
| `Goodput.EstimateIsLinear` | llm-d-benchmarking-agent-project/app/validation/analysis.py:151-167 | Below the lowest reported latency the estimate is zero, above the highest the top fraction, and in between the rounded straight line through the neighbouring rungs |
| `Goodput.MetImpliesGoodputIff` | llm-d-benchmarking-agent-project/app/validation/analysis.py:153-167 | For ladders with ties: the first implication holds for all targets if and only if the rung is the first at its latency, or its latency is the highest and not the lowest |
| `Goodput.MissedCapsGoodput` | llm-d-benchmarking-agent-project/app/validation/analysis.py:153-167 | Missing the SLO at p caps goodput at fraction(p) |
| `Goodput.EstimateMonotone` | llm-d-benchmarking-agent-project/app/validation/analysis.py:153-167 | The estimate is monotone on any rising ladder |
| `Goodput.EstimateBounds` | llm-d-benchmarking-agent-project/app/validation/analysis.py:153-167 | and lies between zero and the top fraction |
| `Goodput.GoodputForLatency` | llm-d-benchmarking-agent-project/app/validation/analysis.py:133-167 | The two loops compute the specified estimate |
| `Goodput.EvaluateSlo` | llm-d-benchmarking-agent-project/app/validation/analysis.py:169-245 | Met if and only if some statistic is present, every present latency is at most its target, every present floor statistic at least its target and a present success rate at least its floor; the goodput is the least estimate and agrees with the verdicts at the percentile they are judged at |
| `Goodput.MetMeansGoodput` | llm-d-benchmarking-agent-project/app/validation/analysis.py:224-232 | If every latency SLO is met at p, combined goodput is at least fraction(p) |
| `Goodput.LadderFractionsFixed` | llm-d-benchmarking-agent-project/app/validation/report.py:73-77 | Every fraction of the ladder is a four-decimal number |
| `RetentionGc.SelectionIsOptimal` | llm-d-benchmarking-agent-project/app/storage/retention.py:244-283 | The removed items are the shortest oldest-first prefix of the non-active ones whose survivors meet age, count and byte caps together |
| `RetentionGc.MeetsIff` | llm-d-benchmarking-agent-project/app/storage/retention.py:261-281 | The caps in numbers: no survivor is older than the age cap, and count and bytes of the survivors do not exceed theirs |
| `RetentionGc.SelectForRemoval` | llm-d-benchmarking-agent-project/app/storage/retention.py:244-283 | The three passes over an index set compute exactly that prefix |
| `RetentionGc.BytesPass` | llm-d-benchmarking-agent-project/app/storage/retention.py:273-281 | The byte loop ends at the cut-off |
| `RetentionGc.RemovedAreInactiveItems` | llm-d-benchmarking-agent-project/app/storage/retention.py:256-283 | Only listed, non-active items are removed |
| `RetentionGc.SecondPassRemovesNothing` | llm-d-benchmarking-agent-project/app/storage/retention.py:244-283 | A second pass at the same time removes nothing, in whatever order the survivors are listed |
| `RetentionGc.GcArea` | llm-d-benchmarking-agent-project/app/storage/retention.py:286-316 | The area report in terms of the deleted items, with failing deletions and dry runs |
| `RetentionGc.DeletedIs` | llm-d-benchmarking-agent-project/app/storage/retention.py:302-312 | A dry run reports everything selected, a real one exactly the ids whose deletion did not raise |
| `RetentionGc.TotalsBalance` | llm-d-benchmarking-agent-project/app/storage/retention.py:297-316 | With distinct ids, items and bytes kept plus deleted are the totals before |
| `RetentionGc.CountBalancesIff` | llm-d-benchmarking-agent-project/app/storage/retention.py:314-315 | The item count balances if and only if the removed ids are distinct |
| `DoeExpand.RowsAreAssignments` | llm-d-benchmarking-agent-project/app/validation/doe.py:167-185 | The rows are exactly the assignments of one level to each factor |
| `DoeExpand.RowsDistinct` | llm-d-benchmarking-agent-project/app/validation/doe.py:167-198 | each once up to type and value, under distinct names |
| `DoeExpand.RowCount` | llm-d-benchmarking-agent-project/app/validation/doe.py:167-185 | Their number is the product of the numbers of distinct levels |
| `DoeExpand.TotalMatrix` | llm-d-benchmarking-agent-project/app/validation/doe.py:96-100 | The matrix size is that product over both phases |
| `DoeExpand.Expand` | llm-d-benchmarking-agent-project/app/validation/doe.py:167-185 | The loop emits the first occurrence of each combination, each named after the names before it |
| `DoeExpand.DedupeName` | llm-d-benchmarking-agent-project/app/validation/doe.py:201-207 | The renaming loop terminates with the first free variant from 2 on |
| `DoeExpand.VariantsSize` | llm-d-benchmarking-agent-project/app/validation/doe.py:204-207 | The variants are pairwise distinct, which is why it terminates |
| `DoeExpand.ProductMembers` | llm-d-benchmarking-agent-project/app/validation/doe.py:175-176 | The product lists exactly the assignments |
| `DoeExpand.ProductOrder` | llm-d-benchmarking-agent-project/app/validation/doe.py:175 | The matrix is listed with the first factor varying slowest |
| `DoeExpand.DedupeInOrder` | llm-d-benchmarking-agent-project/app/validation/doe.py:173-180 | Rows stand in the order in which their combinations first occur |
| `DoeExpand.PayloadInjective` | llm-d-benchmarking-agent-project/app/validation/doe.py:176-180 | With distinct keys, equal payloads come from equal combinations |
| `DoeExpand.CoerceFactors` | llm-d-benchmarking-agent-project/app/validation/doe.py:132-147 | Accepts if and only if every request is well formed and names and keys are distinct; the error is the first malformed request's first offence, or a repeated name or key |
| `DoeExpand.CoerceFactor` | llm-d-benchmarking-agent-project/app/validation/doe.py:103-129 | Accepts if and only if name and key match their patterns and the levels are a non-empty list of scalars |
| `DoeExpand.EmittedName` | llm-d-benchmarking-agent-project/app/validation/doe.py:184-184 | The emitted row keeps its name if and only if no factor overwrites the key "name" with another value |
| `Numerals.SuffixInjective` | llm-d-benchmarking-agent-project/app/validation/doe.py:204-207 | Numbered variants of a name are as distinct as their numbers |
| `Numerals.DecimalReads` | llm-d-benchmarking-agent-project/app/validation/doe.py:201-209 | A numeral has digits only, no leading zero, and reads back as its number |
| `LineChunking.ChunkingIrrelevantIff` | llm-d-benchmarking-agent-project/app/security/runner.py:248-273 | With reads of at most `read` characters, `read` no larger than the cap, all ways to cut a stream into reads emit the same lines if and only if every newline-terminated line is shorter than the cap or its length modulo the cap is at least `read` - 1 |
| `LineChunking.SteadyEmits` | llm-d-benchmarking-agent-project/app/security/runner.py:248-273 | Then every sequence of reads emits each line cut at multiples of the cap |
| `LineChunking.UnsteadyMatters` | llm-d-benchmarking-agent-project/app/security/runner.py:257-269 | Any other line is emitted in two different ways by two sequences of reads |
| `LineChunking.OverIsRemainder` | llm-d-benchmarking-agent-project/app/security/runner.py:267-269 | What cutting full segments leaves of a length is its remainder by the cap |
| `LinePump.WholeSplit` | llm-d-benchmarking-agent-project/app/security/runner.py:248-273 | With short lines the emitted lines are the stream split on newlines, trailing CRs stripped, empty last piece dropped |
| `LinePump.ParseSplits` | llm-d-benchmarking-agent-project/app/security/runner.py:248-273 | The lines with their newlines and the open line make up the text, and no line has a newline inside |
| `LinePump.StripCrTakes` | llm-d-benchmarking-agent-project/app/security/runner.py:264 | Stripping takes exactly the trailing carriage returns |
| `LinePump.ChargeIsLength` | llm-d-benchmarking-agent-project/app/security/runner.py:240-246 | The charge against the bound is the length of the captured lines written out |
| `LinePump.ShortLinesSplit` | llm-d-benchmarking-agent-project/app/security/runner.py:248-273 | The same with an overlong open line, which is cut in segments |
| `LinePump.NothingLost` | llm-d-benchmarking-agent-project/app/security/runner.py:248-273 | For every stream and chunking the emitted lines carry all characters in order, CRs and newlines aside |
| `LinePump.PendingOpen` | llm-d-benchmarking-agent-project/app/security/runner.py:265-269 | After each read the pending text is below the cap and has no newline |
| `LinePump.CapturedIsBoundedHead` | llm-d-benchmarking-agent-project/app/security/runner.py:240-244 | The captured lines are the first ones emitted, all or as many as reach the bound |
| `LinePump.CapturedBounded` | llm-d-benchmarking-agent-project/app/security/runner.py:240-244 | Their size is bounded for every stream |
| `LinePump.Sink.EmitOne` | llm-d-benchmarking-agent-project/app/security/runner.py:240-246 | One line: sent on, and captured while below the bound |
| `LinePump.Sink.FlushLines` | llm-d-benchmarking-agent-project/app/security/runner.py:262-264 | Emits every complete line and leaves the open one |
| `LinePump.Sink.FlushSegments` | llm-d-benchmarking-agent-project/app/security/runner.py:267-269 | Cuts an overlong open line |
| `LinePump.Sink.Pump` | llm-d-benchmarking-agent-project/app/security/runner.py:248-273 | The nested loops emit the specified lines |
| `ConfigMerge.AssociativeIff` | llm-d-benchmarking-agent-project/app/capacity/planner.py:350-375 | Merging three layers is associative if and only if no leaf hides a mapping whose content a later mapping would not overrule |
| `ConfigMerge.MergeAssociative` | llm-d-benchmarking-agent-project/app/capacity/planner.py:350-375 | In particular for layers of agreeing shapes, nulls allowed |
| `ConfigMerge.MergeIdempotent` | llm-d-benchmarking-agent-project/app/capacity/planner.py:350-375 | Merging an overlay twice is merging it once |
| `ConfigMerge.CoveredIff` | llm-d-benchmarking-agent-project/app/capacity/planner.py:350-375 | A base adds nothing to an overlay exactly when the overlay overrules each of its keys and has no null the base lacks |
| `ConfigMerge.OverlayShows` | llm-d-benchmarking-agent-project/app/capacity/planner.py:368-374 | Where the overlay has a leaf the merge shows it |
| `ConfigMerge.BaseShows` | llm-d-benchmarking-agent-project/app/capacity/planner.py:368-374 | Where the overlay has nothing or a null on the way, the merge shows the base |
| `ConfigMerge.DeepMerge` | llm-d-benchmarking-agent-project/app/capacity/planner.py:350-375 | The recursive loop computes the merge |
| `ConfigMerge.GetSet` | llm-d-benchmarking-agent-project/app/capacity/planner.py:378-386 | A written path reads its value |
| `ConfigMerge.GetSetOther` | llm-d-benchmarking-agent-project/app/capacity/planner.py:378-386 | Paths neither above nor below it read as before |
| `ConfigMerge.PathsUnrelated` | llm-d-benchmarking-agent-project/app/capacity/planner.py:78-89 | No override path is a prefix of another |
| `ConfigMerge.OverridesRead` | llm-d-benchmarking-agent-project/app/capacity/planner.py:389-422 | Each override path reads exactly the value given for its key, or what it held before |
| `ConfigMerge.OverridesAreAt` | llm-d-benchmarking-agent-project/app/capacity/planner.py:78-89 | Each of the ten overrides is to be found at its documented path afterwards, and where none was given the path reads as before |
| `ConfigMerge.AcceptedIff` | llm-d-benchmarking-agent-project/app/capacity/planner.py:396-404 | Overrides are applied up to the first non-null one under an unknown key, and to the end if there is none |
| `ConfigMerge.EveryOverrideReadable` | llm-d-benchmarking-agent-project/app/capacity/planner.py:389-422 | Every non-null override is readable at its path |
| `ConfigMerge.ModelSetsId` | llm-d-benchmarking-agent-project/app/capacity/planner.py:418-421 | A model without any mention of an id also sets the id; a mentioned null id prevents that |
| `ConfigMerge.OverridesFrame` | llm-d-benchmarking-agent-project/app/capacity/planner.py:389-422 | Everything off the written paths reads as before |
| `ConfigMerge.Plan.ApplyOverrides` | llm-d-benchmarking-agent-project/app/capacity/planner.py:389-422 | Applies the overrides up to the first unknown non-null key and reports that key |
| `ConfigMerge.LayerPrecedence` | llm-d-benchmarking-agent-project/app/capacity/planner.py:450-453 | Scenario over shared over defaults, off the overridden paths and the hoisted sections |
| `ConfigMerge.HoistedPrecedence` | llm-d-benchmarking-agent-project/app/capacity/planner.py:450-453 | In a hoisted section a leaf of the scenario's modelservice block comes first |
| `ConfigMerge.HoistShows` | llm-d-benchmarking-agent-project/app/capacity/planner.py:336-347 | A leaf in a hoisted section of the block shows at the top level |
| `ConfigMerge.HoistFrame` | llm-d-benchmarking-agent-project/app/capacity/planner.py:336-347 | Other sections read as before |
| `ConfigMerge.Plan.HoistModelservice` | llm-d-benchmarking-agent-project/app/capacity/planner.py:336-347 | The loop hoists the listed sections in order |
| `WsFrames.FrameRoundTrip` | llm-d-benchmarking-agent-project/harnesses/cluster-service-sim/ws_chat_probe.py:101-132 | Decoding an encoded frame returns FIN, opcode and payload and leaves the following bytes, for every mask and every payload below 2^63 bytes |
| `WsFrames.FramesRoundTrip` | llm-d-benchmarking-agent-project/harnesses/cluster-service-sim/ws_chat_probe.py:101-132 | The same for any sequence of frames |
| `WsFrames.Connection.RecvExact` | llm-d-benchmarking-agent-project/harnesses/cluster-service-sim/ws_chat_probe.py:86-99 | Returns the next n bytes of the stream, however it arrives in chunks and timeouts, and leaves the rest; fails exactly if the stream ends first |
| `WsFrames.Connection.RecvFrame` | llm-d-benchmarking-agent-project/harnesses/cluster-service-sim/ws_chat_probe.py:118-132 | Returns the first frame of the stream and leaves the rest |
| `WsFrames.Connection.ReadEvents` | llm-d-benchmarking-agent-project/harnesses/cluster-service-sim/ws_chat_probe.py:138-166 | The loop hands on the payloads of the reassembly specification for the frames read before the deadline |
| `WsFrames.InTimePrefix` | llm-d-benchmarking-agent-project/harnesses/cluster-service-sim/ws_chat_probe.py:140-141 | Those are the complete frames up to the first that the deadline precedes |
| `WsFrames.SendText` | llm-d-benchmarking-agent-project/harnesses/cluster-service-sim/ws_chat_probe.py:101-116 | Puts a final, masked text frame on the wire |
| `WsFrames.TextsExactlyIff` | llm-d-benchmarking-agent-project/harnesses/cluster-service-sim/ws_chat_probe.py:142-160 | Fragments with pings and pongs in between are reassembled to exactly the text messages if and only if no binary message was fragmented |
| `WsFrames.Reassembly` | llm-d-benchmarking-agent-project/harnesses/cluster-service-sim/ws_chat_probe.py:142-160 | What is handed on for any conforming stream, fragmented binaries included |
| `WsFrames.ControlIgnored` | llm-d-benchmarking-agent-project/harnesses/cluster-service-sim/ws_chat_probe.py:146-149 | Pings and pongs do not disturb reassembly |
| `WsFrames.EndToEnd` | llm-d-benchmarking-agent-project/harnesses/cluster-service-sim/ws_chat_probe.py:84-160 | From messages to bytes in any chunks and back, when the deadline does not pass |
| `WsFrames.NumberOfBigEndian` | llm-d-benchmarking-agent-project/harnesses/cluster-service-sim/ws_chat_probe.py:111-127 | Length fields read back |
| `WsFrames.XorTwice` | llm-d-benchmarking-agent-project/harnesses/cluster-service-sim/ws_chat_probe.py:115-131 | Masking twice with the same byte is the identity |

## Left out

- HTTP routes, static files, rendering, prompts, tool descriptions, logging and metrics: text and I/O.
- The SDK and Codex clients, subprocess launch, kubectl and the file system: an environment that answers, fails or cancels. Steering covers the SDK engine only.
- Clocks: abstract numbers; a timeout is a nondeterministic step, and `Watch` takes the late poll as a hypothesis.
- JSON: dump and load are taken as an inverse pair; regexes and catalog lookups are uninterpreted tests; level tokens and treatment titles are any function.
- Checkpoint.ParseFailsExactlyOn: does not model the `RecursionError` that `json.loads` raises on deeply nested text and the parse does not catch; the row speaks of decoded documents.
- Floats are reals, so NaN and rounding are not modelled; four-decimal rounding is any monotone map that fixes four-decimal numbers.
- Frame content: the stream's frames carry a kind, a sequence number and an opaque payload.
- Session dicts (`app.state.sessions`, `running`, `channels`) are modelled one session at a time; deleting a session and restarting the server are not part of turn ownership.
- `classify_job_status` and `classify_failure` are pure scans over cluster documents; the retry loop takes their answers as given.
- Pod log tails, `reconstruct`, `reconstruct_sweep`, cleanup and manifest rendering of Jobs.
- `record_command`, `record_tool_duration`, `wait_mirrored`, usage accounting and the watchdogs of a turn: bookkeeping beside the modelled queues.
- `CommandPolicy._allow` attaches a declared timeout; governance fields do not affect the verdict.
- A policy entry's YAML shape is typed in the model: malformed entries that Python would meet as other types are not.
- The UTF-8 incremental decoder: the pump is fed characters and reads are counted in them; timeout and cancellation of the drain cut it short at a step.
- `_enumerate` of an area's directory, `run_gc` over all areas, and normalisation of caps: a pass is modelled on the listed items.
- `_hashable` of levels that are neither scalars nor null (YAML dates): such a level and the equal text would be one.
- `_constants_map` and the assembly of the experiment document: field copying.
- ConfigMerge.LayerPrecedence: takes shared layer and scenario after the expansion of their common sections (`_expand_common`), because that mirrors an upstream renderer that is not part of this model.
- `_set_path` and `_deep_merge` are modelled on values: deep copies and aliasing between layers are not captured.
- The chat probe's connection handshake and what it does with a decoded event.
- Informational objectives, units and next-step recommendations of the analysis; without SLOs its SLO fields are simply not read.
