# charlybot: a verified model of the bartending robot's Modbus core

charlybot is a web app that takes cocktail orders and hands them to a robot
arm over Modbus TCP. Two kinds of coil are involved. Command coils are what
the app writes: a cocktail trigger on 100..107, ingredient coils on 132..143
and start on 96. Status coils are what the robot reports: a step flag per
ingredient on 32..41, plus cup holder (90), drink ready (91) and waiting for
a recipe (92).

This project models in Dafny how the app talks to those coils:

- **Device and link**:
  - `Modbus` is the device as a client sees it. It holds the coil memory, the log of requests and the requests that fail.
  - `Connection` is the shared client with its reconnect cap of three.
- **Tables**:
  - `Cocktails` holds the cocktail table, the ingredient table, cocktail lookup and custom-drink step synthesis.
  - `Recipes` holds the cocktail recipes.
- **Server endpoints**:
  - `Status` is the status endpoint.
  - `Events` is the event stream.
  - `InitialState` is the initial-state endpoint.
  - `CustomOrder` is the custom-order endpoint.
  - `ResetAddresses` is the reset endpoint.
- **Client side**: `CocktailStatus` is the client store with its progress computation and its reset latch.
- **Simulator**: `DevSimulator` is the development simulator that plays the robot.
- **Cross-cutting**: `Scenarios` states properties that span several of these parts.

Snapshots of the robot are `map<string, bool>`. This keeps the key naming of each reader literal:

- The status endpoint calls coil 38 `darkRum`.
- The event stream and the client store call it `cognac`.

`Scenarios.CognacProgressStaysZero` proves a consequence. While the drink is not ready, polling the status endpoint leaves the "cognac" cocktail's progress at 0.

`Scenarios.TriggerNamesDisagree` proves another naming mismatch. For trigger coil 102, the event stream announces "old-fashioned" while the initial-state endpoint reports "cognac".

Both are modelled as the source has them.

Failures of the device are modelled as a set of request numbers that fail, plus the requests the device rejects. A write is rejected when its address is beyond the coil memory. A read is rejected when its quantity is outside 1..2000 (section 6.1 of the MODBUS Application Protocol Specification V1.1b3) or when it runs past the end. This makes the answer to any request a function of the coils, the fault set and the request number. Method contracts therefore state exactly what each endpoint sends and returns under every failure pattern.

## Model

| member | source | states |
|---|---|---|
| Modbus.ReadAnswer | src/routes/api/status/+server.js:17 | a read is answered iff the device accepts it, and the answer is the requested coils in order |
| Modbus.Bus.ReadCoils | src/routes/api/status/+server.js:17 | a read logs one request, leaves the coils alone and answers as `ReadAnswer` says |
| Modbus.Bus.WriteCoil | src/routes/api/reset-addresses/+server.js:32 | a write logs one request and stores the value iff the device accepts it |
| Modbus.FirstRejected | src/routes/api/cocktails/custom/+server.js:44-77 | the number of writes accepted before the first failure: all writes before it are accepted and the one at it is not |
| Modbus.ApplyStep | src/routes/api/cocktails/custom/+server.js:47 | one more write of a list adds its effect and its request on top of those before it |
| Modbus.Apply | src/routes/api/reset-addresses/+server.js:26-58 | the coils after a list of writes of one value, each applied iff accepted; `ApplyStep`, `ApplyAppend`, `ApplyAt`, `ApplyIdempotent` and `ApplyNoChange` state its properties |
| Modbus.ApplyAppend | src/routes/api/reset-addresses/+server.js:26-58 | issuing two write lists one after the other equals issuing their concatenation |
| Modbus.ApplyAt | src/routes/api/reset-addresses/+server.js:30-38 | with no failures, a coil ends with the written value iff it is in the list, and is unchanged otherwise |
| Modbus.ApplyIdempotent | src/routes/api/reset-addresses/+server.js:26-58 | issuing the same fault-free writes twice leaves the coils as issuing them once |
| Modbus.ApplyNoChange | src/routes/api/reset-addresses/+server.js:26-58 | writing to coils that already hold the value changes nothing, whichever writes fail |
| Lists.FirstIndex | src/routes/api/events/+server.js:82 | `findIndex`: the first index satisfying the predicate, or none when no element does |
| Lists.Find | src/lib/data/cocktails.js:296 | `find`: the first element satisfying the predicate, or none when none does |
| Lists.Filter | src/lib/data/cocktails.js:305 | `filter`: exactly the elements satisfying the predicate, each as often as in the input, in their original order |
| RobotState.Decode | src/routes/api/status/+server.js:21-30 | the snapshot has exactly the given keys, and key i is true iff element i of the read is exactly true |
| RobotState.AllFalse | src/routes/api/status/+server.js:52-61 | the snapshot has exactly the given keys, all false |
| Cocktails.IngredientAddresses | src/lib/data/cocktails.js:117-202 | every ingredient is written on its read coil plus 100; the read coils are 32..43 and distinct |
| Cocktails.TableAddresses | src/lib/data/cocktails.js:20-110 | seven cocktails; cocktail i is triggered by coil 100 + i and its last step is "drink ready" |
| Cocktails.Resolve | src/lib/data/cocktails.js:270-278 | every synthesised step belongs to a known selected ingredient, and there are no more steps than ids |
| Cocktails.InsertCount | src/lib/data/cocktails.js:281 | inserting into the sorted steps adds exactly that step |
| Cocktails.InsertSorted | src/lib/data/cocktails.js:281 | inserting a step into steps sorted by read address keeps them sorted |
| Cocktails.SortByAddressSorts | src/lib/data/cocktails.js:281 | sorting by read address yields a sorted permutation of the steps |
| Cocktails.SortByAddress | src/lib/data/cocktails.js:281 | the sort by read address; `SortByAddressSorts` proves its result sorted and a permutation of its input |
| Cocktails.ResolveCounts | src/lib/data/cocktails.js:270-278 | each known ingredient gets one step per occurrence of its id; unknown ids get none |
| Cocktails.DistinctReadAddresses | src/lib/data/cocktails.js:117-202 | different ingredient ids have different read coils |
| Cocktails.SortedSelection | src/lib/data/cocktails.js:270-281 | the custom steps are sorted by read address, each belongs to a selected ingredient, and each occurs once per selection |
| Cocktails.GetCocktailById | src/lib/data/cocktails.js:264-297 | "custom" gives the synthesised drink on trigger 107 ending with "drink ready"; any other id gives the first table entry with that id, or none if no entry has it |
| Cocktails.CustomSteps | src/lib/data/cocktails.js:266-294 | the custom drink's steps; `CustomStepsAreSelection` proves them the selected known ingredients in ascending read address, then "drink ready" |
| Cocktails.CustomStepsAreSelection | src/lib/data/cocktails.js:264-293 | the custom drink's steps before "drink ready" are the selected known ingredients, once per occurrence, in ascending read address |
| Cocktails.GetCocktailsByCategory | src/lib/data/cocktails.js:304-306 | exactly the cocktails of the category, in table order |
| Recipes.RecipeAddresses | src/lib/data/cocktails.js:205-249 | every recipe commands ingredient coils 132..143 only; the mojito's sequence is 132, 133, 135, 136, 134, 137, 140, 142, 143 |
| Status.Half | src/routes/api/status/+server.js:13-62 | a half of the snapshot holds its keys, true only where a successful read gave exactly true, all false after a failed read |
| Status.StateOf | src/routes/api/status/+server.js:10-85 | `readRobotState`'s snapshot from the two reads' answers; `StateOfFields`, `StateReportsCoils` and `HalvesFailIndependently` state its keys and values |
| Status.StateOfFields | src/routes/api/status/+server.js:10-85 | the snapshot holds the thirteen keys; step key i comes from the step read alone and system key i from the system read alone |
| Status.DefaultState | src/routes/api/status/+server.js:130-146 | `getDefaultState`: the thirteen keys, all false |
| Status.DefaultIsBothReadsFailed | src/routes/api/status/+server.js:46-82 | the default snapshot is the snapshot built when both reads fail |
| Status.StateReportsCoils | src/routes/api/status/+server.js:17-74 | when both reads are served, step key i reports coil 32 + i and system key i reports coil 90 + i |
| Status.HalvesFailIndependently | src/routes/api/status/+server.js:13-82 | a failed step read zeroes only the step keys and a failed system read only the system keys |
| Status.ReadRobotState | src/routes/api/status/+server.js:10-85 | both reads are always issued, in order, and the snapshot is built from their answers |
| Status.GetStatus | src/routes/api/status/+server.js:88-128 | without a link, the default snapshot and no request; with one, "connected" and a fresh snapshot |
| Events.CurrentStateFields | src/routes/api/events/+server.js:55-72 | the stream snapshot holds the thirteen keys, with "cognac" for coil 38, each true iff its read element is exactly true |
| Events.CurrentState | src/routes/api/events/+server.js:55-72 | the stream's snapshot from the two reads' data; `CurrentStateFields` states its keys and values |
| Events.StartedCocktail | src/routes/api/events/+server.js:81-99 | the id is the stream map's entry for the first set trigger bit, and there is none when no bit is set |
| Events.Notifications | src/routes/api/events/+server.js:75-123 | the notifications one snapshot change raises; `NotificationsMatchTransitions` states which edge raises which |
| Events.NotificationsMatchTransitions | src/routes/api/events/+server.js:75-122 | "preparation started" iff waiting-for-recipe fell, "drink ready" iff drink-ready rose, "robot ready" iff waiting-for-recipe rose; never both started and ready |
| Events.NoChangeNoNotification | src/routes/api/events/+server.js:75-122 | an unchanged snapshot raises no notification |
| Events.ObserveReportsCoils | src/routes/api/events/+server.js:49-72 | a snapshot is observed iff both reads are served, and it reports coils 32 + i and 90 + i |
| Events.Observe | src/routes/api/events/+server.js:49-72 | the snapshot one poll observes, if both reads are served; `ObserveReportsCoils` states when and what |
| Events.SuccessEndsWithStateUpdate | src/routes/api/events/+server.js:125-132 | a poll that observes a snapshot sends it last and records it as the last state, unless the trigger read it needed failed |
| Events.FirstPollSendsOnlyState | src/routes/api/events/+server.js:75-129 | the first successful poll of a session sends the snapshot and nothing else |
| Events.FailedReadSendsError | src/routes/api/events/+server.js:134-140 | a failed read sends one error event and keeps the last state |
| Events.PollOutcome | src/routes/api/events/+server.js:33-141 | what a poll sends, keeps and asks; `SuccessEndsWithStateUpdate`, `FirstPollSendsOnlyState` and `FailedReadSendsError` state it |
| Events.EventSession.constructor | src/routes/api/events/+server.js:26-30 | a session opens by sending "connected", active, with no last state |
| Events.EventSession.ReadSnapshot | src/routes/api/events/+server.js:49-72 | the two snapshot reads, the second skipped once the first has failed |
| Events.EventSession.Poll | src/routes/api/events/+server.js:33-141 | a closed session does nothing; no link sends an error; otherwise the events, requests and last state are those of `PollOutcome` |
| Events.EventSession.Abort | src/routes/api/events/+server.js:150-155 | the session stops for good |
| CocktailStatus.CountCompleted | src/lib/stores/cocktailStatus.js:188-191 | the number of steps reported done never exceeds the number of steps |
| CocktailStatus.CountCompletedMonotone | src/lib/stores/cocktailStatus.js:188-191 | more steps reported done never lowers the count |
| CocktailStatus.CountCompletedAll | src/lib/stores/cocktailStatus.js:188-191 | every step reported done: the count is the number of steps |
| CocktailStatus.Percent | src/lib/stores/cocktailStatus.js:196 | `Math.round(c / t * 100)`: the nearest percentage, halves rounded up, never above 100 |
| CocktailStatus.PercentMonotone | src/lib/stores/cocktailStatus.js:196 | the rounded percentage does not decrease as the count grows |
| CocktailStatus.CalculateProgress | src/lib/stores/cocktailStatus.js:169-197 | 100 once the drink is ready, 0 without an active cocktail, never above 100 |
| CocktailStatus.ProgressIsRoundedShare | src/lib/stores/cocktailStatus.js:181-196 | before the drink is ready, a known cocktail with steps shows its share of steps done, rounded; otherwise 0 |
| CocktailStatus.ProgressMonotone | src/lib/stores/cocktailStatus.js:169-197 | progress never goes back as more steps are reported done |
| CocktailStatus.AllDoneIsComplete | src/lib/stores/cocktailStatus.js:188-196 | a known cocktail with every step reported done shows 100 |
| CocktailStatus.LatchStep | src/lib/stores/cocktailStatus.js:113-129 | the reset fires iff the drink is ready and it has not fired yet; polling stops exactly when it has fired and the robot waits for a recipe |
| CocktailStatus.WaitingAfterResetStops | src/lib/stores/cocktailStatus.js:124-129 | once the reset has fired, a poll that sees the robot waiting for a recipe stops polling |
| CocktailStatus.ReadyThenWaitingStops | src/lib/stores/cocktailStatus.js:113-129 | a fresh order that sees the drink ready, then the robot waiting, posts one reset and stops at the second poll, not the first |
| CocktailStatus.AtMostOneReset | src/lib/stores/cocktailStatus.js:113-122 | over any run of successful polls after a start, at most one reset request is sent |
| CocktailStatus.StopFollowsReset | src/lib/stores/cocktailStatus.js:113-129 | polling that stops after a start has sent exactly one reset request |
| CocktailStatus.StatusStore.constructor | src/lib/stores/cocktailStatus.js:32-59 | the store starts with no order, all flags false, no link, progress 0, not polling |
| CocktailStatus.StatusStore.StartStatusPolling | src/lib/stores/cocktailStatus.js:66-79 | a new order: latch cleared, progress 0, no error, polling |
| CocktailStatus.StatusStore.StopStatusPolling | src/lib/stores/cocktailStatus.js:144-160 | polling off, latch cleared, no active order, everything else kept |
| CocktailStatus.StatusStore.Tick | src/lib/stores/cocktailStatus.js:84-138 | a failed fetch records the error and the lost link only; a successful one updates state and progress and follows `LatchStep`; at most one reset per order |
| Connection.ConnectionManager.constructor | src/lib/services/modbusClient.js:11-16 | no client, no attempt in flight, counter 0 |
| Connection.ConnectionManager.IsConnected | src/lib/services/modbusClient.js:148-150 | `isConnected`: a client exists and its socket is open; `GetModbusClient` and `Acquire` reuse the link exactly when it holds |
| Connection.ConnectionManager.GetModbusClient | src/lib/services/modbusClient.js:37-56 | an open client is reused and clears the counter; otherwise the attempt in flight is joined, the caller is refused at three failures, or a new attempt starts |
| Connection.ConnectionManager.SettleConnect | src/lib/services/modbusClient.js:58-68 | success installs a fresh open socket and clears the counter; failure adds one to it; no attempt is left in flight |
| Connection.ConnectionManager.CloseConnection | src/lib/services/modbusClient.js:117-128 | the client is dropped |
| Connection.ConnectionManager.ForceReconnect | src/lib/services/modbusClient.js:134-142 | no client, no attempt in flight, counter 0 |
| Connection.ConnectionManager.ResetReconnectAttempts | src/lib/services/modbusClient.js:155-157 | the counter is 0 |
| Connection.ConnectionManager.SocketClosed | src/lib/services/modbusClient.js:86-95 | an error or close on the socket drops the client |
| Connection.ConnectionManager.Acquire | src/lib/services/modbusClient.js:37-69 | the caller gets a client iff the link was open or a permitted new attempt succeeds; a failed attempt adds one to the counter and leaves the client as it was, not connected; a refusal changes nothing |
| CustomOrder.CustomMapAddresses | src/routes/api/cocktails/custom/+server.js:27-37 | the endpoint's map sends distinct ids to distinct coils in 132..141, none of them muddling |
| CustomOrder.MappedAddresses | src/routes/api/cocktails/custom/+server.js:44-51 | one ingredient coil per known id, never more writes than ids, all in 132..141 |
| CustomOrder.MappedAppend | src/routes/api/cocktails/custom/+server.js:44-51 | the writes for a list are those of its first part followed by those of the rest |
| CustomOrder.MappedCounts | src/routes/api/cocktails/custom/+server.js:44-51 | each known id is written once per occurrence, in the caller's order; unknown ids are skipped |
| CustomOrder.CustomWritePlan | src/routes/api/cocktails/custom/+server.js:44-77 | the writes of an order, in order; `PlanStartsWithIngredients`, `MuddlingIffMint`, `StirringAndStrawIffMixer` and `PlanEndsWithTriggerThenStart` state their content |
| CustomOrder.PlanEndsWithTriggerThenStart | src/routes/api/cocktails/custom/+server.js:71-77 | every order ends with the custom trigger then start, each written exactly once |
| CustomOrder.MuddlingIffMint | src/routes/api/cocktails/custom/+server.js:41-58 | muddling is written iff mint is selected, and only once |
| CustomOrder.StirringAndStrawIffMixer | src/routes/api/cocktails/custom/+server.js:40-69 | stirring and straw are written iff soda or coke is selected, just before the trigger |
| CustomOrder.PlanStartsWithIngredients | src/routes/api/cocktails/custom/+server.js:44-51 | the ingredient writes come first, in the caller's order, not sorted |
| CustomOrder.IceThenMintPlan | src/routes/api/cocktails/custom/+server.js:44-77 | ice then mint writes 134, 132, 133, 107, 96 |
| CustomOrder.WriteUntilFailure | src/routes/api/cocktails/custom/+server.js:44-77 | the writes are issued in order up to and including the first failure; success iff none fails; earlier writes stay applied |
| CustomOrder.PostCustom | src/routes/api/cocktails/custom/+server.js:16-104 | an unreadable body is a 500 and an empty selection a 400, both without touching the link or the connection manager; otherwise `getModbusClient` runs (open link reused with the counter cleared, a failed connect counted, the client kept) and, with a client, the plan is issued and any failure is a 500 |
| ResetAddresses.ResetPlanAddresses | src/routes/api/reset-addresses/+server.js:27-56 | a reset writes 21 coils: the triggers 100..107, the ingredient coils 132..143 and start |
| ResetAddresses.ResetPlan | src/routes/api/reset-addresses/+server.js:27-56 | the writes of a reset, in order; `ResetPlanAddresses` states which 21 coils |
| ResetAddresses.WriteEach | src/routes/api/reset-addresses/+server.js:30-38 | every address is written in order whether or not earlier writes failed |
| ResetAddresses.PostResetAddresses | src/routes/api/reset-addresses/+server.js:20-76 | `getModbusClient` runs first (open link reused with the counter cleared, a failed connect counted, the client kept); with a client all 21 writes of false are attempted and success is reported whatever they gave; without one, a 500 and no write |
| ResetAddresses.ResetClears | src/routes/api/reset-addresses/+server.js:26-60 | a fault-free reset clears every reset coil and leaves every other coil as it was |
| ResetAddresses.ResetIdempotent | src/routes/api/reset-addresses/+server.js:26-60 | two fault-free resets leave the coils as one does |
| ResetAddresses.ResetOfResetCoils | src/routes/api/reset-addresses/+server.js:26-60 | resetting already-reset coils changes nothing, whichever writes fail |
| InitialState.DetectActiveCocktail | src/routes/api/initial-state/+server.js:59-79 | the first set trigger bit i names coil 100 + i: "custom" for 107, otherwise the table's cocktail on that coil, which for i < 7 is the i-th of mojito, cuba-libre, cognac, whiskey-rocks, neat-whiskey, whiskey-highball, whiskey-coke; none when no bit is set or the coil has no cocktail |
| InitialState.DetectOverTriggers | src/routes/api/initial-state/+server.js:59-68 | over the eight trigger bits, the first set bit i names the i-th of mojito, cuba-libre, cognac, whiskey-rocks, neat-whiskey, whiskey-highball, whiskey-coke, custom |
| InitialState.InitialOutcome | src/routes/api/initial-state/+server.js:30-101 | the answer and requests once a client is held; `ReadyClearsStart`, `WritesOnlyWhenReady`, `BusyDetects` and `FailureAnswers500` state them |
| InitialState.ReadyClearsStart | src/routes/api/initial-state/+server.js:32-49 | a ready robot gets exactly one write, false to start, and the answer "ready, nothing active" |
| InitialState.WritesOnlyWhenReady | src/routes/api/initial-state/+server.js:32-49 | a write is made iff coil 92 was read true |
| InitialState.BusyDetects | src/routes/api/initial-state/+server.js:51-87 | a busy robot whose reads are served is reported busy with the cocktail its trigger coils name |
| InitialState.FailureAnswers500 | src/routes/api/initial-state/+server.js:89-101 | a failure of the first or the second request answers 500, not ready, no cocktail; the answer is 200 iff every request made is served |
| InitialState.GetInitialState | src/routes/api/initial-state/+server.js:21-102 | without a client, a 500; with one, the requests and answer of `InitialOutcome`; the reconnect counter ends at 0 on every path, and the link is open afterwards iff a client was obtained |
| DevSimulator.Initial | scripts/dev-simulator.js:12-22 | the simulator starts with only waiting-for-recipe set, in both memories, and no preparation |
| DevSimulator.StepsFrom | scripts/dev-simulator.js:41-59 | every step is a read coil 32..41 |
| DevSimulator.StepsFromSelects | scripts/dev-simulator.js:55-59 | the steps are exactly the read coils whose write coil (read coil + 100) is set |
| DevSimulator.StepsFromAscending | scripts/dev-simulator.js:55-59 | the steps come in ascending address order, each once |
| DevSimulator.StepsFromStep | scripts/dev-simulator.js:55-59 | visiting one more write coil appends its step, if commanded, to those already collected |
| DevSimulator.StartPreparation | scripts/dev-simulator.js:27-89 | a preparation request; `RisingEdgeStarts` and `RunningIgnoresStart` state its effect |
| DevSimulator.HandleWriteSpec | scripts/dev-simulator.js:94-136 | a handled write; `StoresValue`, `WriteFrame`, `StartsOnlyOnRisingEdge` and `FullResetMakesReady` state its effect |
| DevSimulator.TickSpec | scripts/dev-simulator.js:71-88 | one interval run; `PreparationCompletes` states where the runs lead |
| DevSimulator.StoresValue | scripts/dev-simulator.js:95-96 | a write always leaves its value at its address |
| DevSimulator.WriteFrame | scripts/dev-simulator.js:94-136 | a write changes no coil except its own and the status flags |
| DevSimulator.StartsOnlyOnRisingEdge | scripts/dev-simulator.js:99-102 | a preparation begins only on a write of true to start while start was false |
| DevSimulator.RisingEdgeStarts | scripts/dev-simulator.js:27-64 | on a rising edge with nothing running, the robot is busy; it runs iff an ingredient is commanded, with those steps from the first |
| DevSimulator.RunningIgnoresStart | scripts/dev-simulator.js:28-31 | a running preparation ignores a second start |
| DevSimulator.FullResetMakesReady | scripts/dev-simulator.js:105-134 | a false write that leaves every ingredient, trigger and start coil false clears the step, cup-holder and drink-ready flags and sets waiting-for-recipe, in both memories |
| DevSimulator.FullReset | scripts/dev-simulator.js:105-112 | the full-reset condition: every ingredient, trigger and start coil false; `FullResetMakesReady` states what it triggers |
| DevSimulator.PreparationCompletes | scripts/dev-simulator.js:71-88 | a running preparation ends after one tick per remaining step plus one: every step flag and drink ready set, nothing running, no set coil cleared |
| DevSimulator.Simulator.constructor | scripts/dev-simulator.js:12-22 | the memories start in the `Initial` state |
| DevSimulator.Simulator.CollectSteps | scripts/dev-simulator.js:40-59 | the loop over the write coils collects the steps `SelectSteps` describes |
| DevSimulator.Simulator.SimulateCocktailPreparation | scripts/dev-simulator.js:27-89 | the arrays and the preparation change as `StartPreparation` says |
| DevSimulator.Simulator.ClearStatus | scripts/dev-simulator.js:117-131 | both memories get the step, cup-holder and drink-ready flags cleared and waiting-for-recipe set, nothing else |
| DevSimulator.Simulator.HandleWrite | scripts/dev-simulator.js:94-136 | the arrays and the preparation change as `HandleWriteSpec` says |
| DevSimulator.Simulator.Tick | scripts/dev-simulator.js:71-88 | one interval run changes the arrays and the preparation as `TickSpec` says |
| Scenarios.ServedKeep | scripts/dev-simulator.js:94-96 | after a series of served writes, a non-status coil holds the last value written to it |
| Scenarios.ServedTrueStores | scripts/dev-simulator.js:94-102 | serving true to coils other than start only stores the values |
| Scenarios.ResetMakesSimulatorReady | src/routes/api/reset-addresses/+server.js:26-60 | from any simulator state, the reset endpoint's 21 writes, all served, leave the robot ready with no step, cup-holder or drink-ready flag set |
| Scenarios.IceThenMintPreparation | src/routes/api/cocktails/custom/+server.js:44-77 | a custom order of ice then mint, served by a fresh simulator, runs the mint, muddling and ice steps in address order |
| Scenarios.CognacProgressStaysZero | src/routes/api/status/+server.js:27 | while the drink is not ready, a status snapshot never moves the "cognac" cocktail's progress off 0, because that reader has no "cognac" key |
| Scenarios.TriggerNamesDisagree | src/routes/api/events/+server.js:88-98 | trigger coil 102 is announced as "old-fashioned" by the event stream and reported as "cognac" by the initial-state endpoint |

## Left out

- Timers, delays and intervals (the 50 ms write delays, the 2 s and 3 s polling intervals, the fetch timeout) are not modelled. Each interval run is a call of a `Tick` or `Poll` method made by the environment.
- Concurrency is not modelled. Requests run one at a time. `forceReconnect` during a pending connect, a caller waiting on the connection promise, and the old socket's close handler firing after a new client is installed are all outside the model.
- Events.EventSession.Abort: takes effect whenever it is called. In the source the abort listener is attached only after the first poll has completed (src/routes/api/events/+server.js:147-150). A client that disconnects during that first poll is never noticed, and the polling interval keeps running.
- Connection.ConnectionManager.Acquire: models one `getModbusClient` call by a caller that is alone. The outcome of the TCP connect is the parameter `connectSucceeds`. The translation of connect errors into user messages is left out, and so is reading the configuration file.
- Status.GetStatus: the link state is the parameter `connected`. The catch branch at src/routes/api/status/+server.js:116-127 is not modelled. With an open link `getModbusClient` returns the client without connecting, and `readRobotState` absorbs every read error, so nothing reaches that branch.
- Events.EventSession.Poll: the link state is the parameter `connected`, and with a link `getModbusClient` is taken to give the open client. SSE message framing, timestamps and enqueue errors on a closed controller are left out.
- Modbus.Bus.WriteCoil: a write whose reply is lost or times out is modelled as not executed, leaving its coil as it was. The device may in fact have executed it. So for the failing write only, the coil-state contracts of `CustomOrder.WriteUntilFailure`, `CustomOrder.PostCustom` and `ResetAddresses.PostResetAddresses` claim more than the device guarantees.
- Modbus.Bus.ReadCoils: an answer holds exactly the requested coils. The client library pads coil data to whole bytes, which only adds elements no model reader looks at (elements past the quantity read as false either way).
- CocktailStatus.Percent: uses exact rational arithmetic with halves rounded up. `Math.round` on a floating-point quotient agrees whenever the step count is at most 13, which holds for every predefined cocktail. A custom drink with many repeated ingredients could differ at a rounding boundary.
- Cocktails.GetCocktailById: treats ids that name Object prototype members ("constructor", "toString", ...) as unknown. In the source such an id looks up a function and pushes it as a step.
- CustomOrder.MappedAddresses: treats ids that name Object prototype members ("constructor", "toString", ...) as unknown. In the source such an id looks up a function, which is truthy and is handed to `writeCoil` as an address. What the client library does with it is not modelled.
- CustomOrder.PostCustom: response messages and the echoed ingredient list are not modelled. A body whose `ingredients` is not an array, and list items that are not strings, are folded into `NoList` and unknown ids.
- DevSimulator.Simulator.HandleWrite: the coil memory is modelled as 65536 entries, all false at first. In the source it is a 200-entry array, and an entry past the end reads as undefined rather than false. No comparison in `handleWrite` reads such an entry.
- DevSimulator.Simulator.HandleWrite: the library's own store of the written value after `handleWrite` is not modelled. That store repeats the value `handleWrite` already left at the address, so it changes nothing.
- The simulator's holding and input registers are not modelled, nor are its server setup and its shutdown handler.
- Labels, names, descriptions and images of cocktails and ingredients are not modelled. JSON response fields beyond status, readiness, cocktail id and the custom extras are not modelled either, and neither is logging.
- Other parts of the repository are not part of this model, because they do not act on the robot's coils themselves:
  - the single-cocktail order endpoint;
  - voice recognition;
  - Modbus configuration;
  - the health endpoint (except through `resetReconnectAttempts`);
  - the Modbus test endpoints;
  - the exploration and debug scripts.
