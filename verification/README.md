# A model of srad's protocol core

srad implements both ends of the Sparkplug B protocol (Sparkplug 3.0.0) in Rust. This Dafny project models
the parts of it whose correctness is hard to see, and proves what they are for.

**Sequence-ordered delivery.** An edge node numbers its messages with a wrapping byte under a mutex; a host
application puts them back in order and applies them to metric stores.
`Resequencer.dfy` is the reordering buffer as a class over its specification; `ReorderSafety.dfy` proves what
holds of it with no assumption on arrivals, `ReorderRefinement.dfy` that it refines an unbounded reorder buffer
inside its window, and `ReorderWindow.dfy` that the window bound is exact.
`HostNode.dfy` specifies a host node, `HostTask.dfy` is its task updating fields in place, `HostRuns.dfy` the
invariant of all runs, `HostGuarantees.dfy` the guarantees, `HostRequests.dfy` those about rebirth requests, and
`HostTimers.dfy` those about the reorder timer. `HostOutcomes.dfy` says what each input comes to in terms of what
happened before: which store is asked, which reason for a rebirth arises, and when the node goes stale.
`EdgeNode.dfy`, `EdgeTask.dfy`, `EdgeRuns.dfy` and `EdgeGuarantees.dfy` do the same for an edge node: the shared
state, the task that owns the session, the devices, and the event loop that owns the connection.
`EdgeSessions.dfy` settles when an edge's numbers come in the order a host needs: data after births, and none
after the node's death; `EdgeStalls.dfy` when an edge node stops, and what gets it going; and `EdgeSteps.dfy` what
each step leads to in terms of what happened before. `Delivery.dfy` joins the two ends.

**The application's session machine.** `AppSession.dfy` and `AppSessionRuns.dfy`: spawned attempts to establish
a session, their wrapping numbers, retries, and what the user is told.

**Templates and codecs.** `Template.dfy` gives the meaning of `#[derive(Template)]` over a recursive schema,
`TemplateTask.dfy` the generated loops, `TemplateLaws.dfy` the laws of diff and patch, and `TemplateAcceptance.dfy`
which instances are accepted, whoever made them. `Values.dfy` models
scalars and their payload fields, `NumberArrays.dfy`, `BooleanArrays.dfy` and `StringArrays.dfy` the array
codecs, `DataSets.dfy` and `DataSetTask.dfy` typed datasets, and `Topics.dfy` the topic printer and parser.

**Allocators.** `Probing.dfy` has linear probing and the parking theorem; `DeviceIds.dfy` and `Aliases.dfy` the
two users of it. `Bounded.dfy`, `Options.dfy`, `FiniteSets.dfy` and `Splitting.dfy` are shared helpers.

Where the source updates fields, loops or uses in-place collections, a class or a method with a loop does the
same and is proved equal to a specification function; the theorems are lemmas about runs of those functions.
Metric stores are oracles that may answer anything, depending on all that happened before. Clocks are inputs.
Every `.await` on a client ends a step, so other tasks act while a call is outstanding; what a task does between
two of them is one step, but a handle's check of its device's flag and its taking of a number are two.
A run is any sequence of steps, those that cannot be taken being skipped.

The handlers themselves, straight-line code each, are methods proved equal to the function of the specification
that the theorems are about: in `HostTask.dfy` those of srad-app/src/generic_app.rs:200-238, 327-357 and 382-548;
in `EdgeTask.dfy` those of srad-eon/src/node.rs:64-141, 230-276, 541-600 and 630-765 and of
srad-eon/src/device.rs:59-64, 172-245 and 291-299; in `AppSession.dfy` those of srad-app/src/eventloop.rs:296-366
and 390-495. The table names only those among them that a proof was needed for.

## Where the code does less than one might expect

Where it says "exactly" or "if and only if" below, both directions are proved, for every run.

- A device's DDATA follows a DBIRTH of the same session, whatever happens in it, if and only if the device was quiet
  when the NBIRTH was started: down, with no DBIRTH publication outstanding, and with no publisher between its check
  of the device's flag and its number (`EdgeSessions.DataFollowsItsBirthExactly`). A rebirth does not take devices
  down, so it can fail, also for a device that is down (`EdgeSessions.RebirthDuringDeviceBirth`). The DDEATH needs the
  first two conditions only (`EdgeSessions.DeathFollowsItsBirthExactly`). A host accepts all a session numbers if and
  only if every device that was not quiet is one it holds live when it accepts the birth, as it does after an
  ordinary rebirth (`Delivery.SessionIsAcceptedExactly`).
- A death can overtake data between the check of the device's flag and the number (`EdgeSessions.DeathOvertakesData`);
  that data can then be numbered, and is refused by every host (`Delivery.OvertakenDataIsRefused`).
- Nothing is numbered after an NDEATH before the next NBIRTH if and only if a handle's `cancel` sent it, and no NBIRTH
  publication was outstanding then (`EdgeSessions.DeathClosesExactly`). When the primary host goes offline, data is
  stopped only once the NDEATH's publication has returned; and a `cancel` during a birth is undone by that birth's
  completion (`EdgeSessions.CancelDuringBirth`).
- A failed rebirth leaves a node stuck: online, unbirthed and idle, with no retry (`EdgeStalls.FailedRebirthSticks`).
  It stays so, numbers nothing and is deaf to rebirth requests, until exactly one of three messages of its event loop
  is taken: the end of the connection, a new start of one, or its primary host's online STATE (`EdgeStalls.StuckExactly`).
  Only this and cancellation make a node stuck that could be birthed (`EdgeStalls.NodeGoesOn`).
- A message is releasable exactly when its number is below the buffer's origin plus 256, and the origin moves only
  when the buffer empties (`ReorderWindow.WindowBoundIsExact`).
- A due message is left behind exactly when a hand-over is refused while the next message is held and the rebirth it
  calls for is suppressed or too old (`HostGuarantees.DueMessagesAreHandedOver`); then nothing more is handed over
  until the node is birthed or goes stale (`HostGuarantees.StallsArePermanent`).
- A node that holds messages has a reorder timer exactly when one is configured and no NDEATH has been handled since a
  message was last put aside: even one too old to make the node stale cancels the timer
  (`HostTimers.HoldsWithTimerExactly`).
- A host node's task panics exactly when a rebirth is called for at a moment when the clock shows less than at the last
  request (`HostRequests.PanicsExactly`); readings can be made to do so exactly when one is less than an earlier one
  that was at least the cooldown (`HostRequests.ClocksThatPanicExactly`). The model records it as the task's end.
- Attempt numbers of the session machine wrap at 2^64: a result a whole turn old would pass for the current one
  (`AppSessionRuns.AStaleResultCanPassForCurrent`). Which such results do harm is settled by
  `AppSessionRuns.SoundnessIsLostExactly`; `AppSessionRuns.NeverSticks` does not depend on it.
- Generated aliases are documented as unique within the node (srad-eon/src/birth.rs:22-24). They are unique within an
  object always, and differ from those of all other objects that have room for their own if and only if the hashes
  leave room in the object's block of 2^32 (`Aliases.ApartExactly`, `Aliases.GeneratedDifferAcrossNodeExactly`). A
  custom alias is checked but not recorded (`Aliases.CustomAliasesCanRepeat`): the aliases of a birth are distinct if
  and only if the custom ones are, from each other and from what probing makes of the hashes
  (`Aliases.BirthAliasesAreDistinctExactly`).
- A boolean array survives encoding exactly when it is empty or its length is not a multiple of eight, although the
  format stores the last eight values too (`BooleanArrays.RoundTripsExactly`); `BooleanArrays.CorrectedRoundTrips`
  proves the cure.
- A group called `STATE` passes name validation, but its topics are read as host certificates
  (`Topics.NodeTopicParsesExactly`). The parser accepts any first segment (`Topics.PrefixAndExcessAreIgnored`).

## Model

| member | source | states |
|---|---|---|
| `Resequencing.Resequencer.Process` | srad-app/src/resequencer.rs:66-97 | updates buffer, next number and state in place exactly as `Processed` says; stays `Valid` for every number, so no later assert can fail |
| `Resequencing.Resequencer.Drain` | srad-app/src/resequencer.rs:101-126 | takes the head out when it is due, as `Drained` says; the assert and the unwrap never fail |
| `Resequencing.FirstKey` | srad-app/src/resequencer.rs:105-126 | the least key of the buffer: what `pop_first` returns |
| `Resequencing.ProcessedKeepsValid` | srad-app/src/resequencer.rs:66-97 | `ReSequencing` holds exactly while something is buffered, after every supply; and which of the three outcomes a number has |
| `Resequencing.DrainedKeepsValid` | srad-app/src/resequencer.rs:101-126 | the same after every drain, and a drained message shrinks the buffer, so draining ends |
| `ReorderSafety.EveryRunConserves` | srad-app/src/resequencer.rs:66-133 | in every run of supplies, drains, resets and re-anchorings, supplied messages = emitted + buffered + rejected + cleared, as multisets |
| `ReorderSafety.EveryRunEmitsConsecutively` | srad-app/src/resequencer.rs:66-133 | in every run, the numbers emitted since the last reset or `set_next_sequence` count up by one modulo 256, with no assumption on arrivals |
| `ReorderRefinement.OutputIsMaximalPrefix` | srad-app/src/resequencer.rs:66-126 | against unbounded numbers: while every arrival is new and in [next, origin + 256), the output is the longest gap-free prefix received, and what is held is the rest |
| `ReorderRefinement.FeedTracks` | srad-app/src/resequencer.rs:66-126 | one arrival in the window, fed and drained to a stop, moves the buffer as the reference moves |
| `ReorderRefinement.DrainTracks` | srad-app/src/resequencer.rs:101-126 | a message comes out exactly when the next due number has been received, and it is that message |
| `ReorderRefinement.EarlyTracks` | srad-app/src/resequencer.rs:75-97 | an early arrival is held under its distance from the origin |
| `ReorderRefinement.NewOrigin` | srad-app/src/resequencer.rs:121-123 | the origin moves only when nothing waits |
| `ReorderWindow.AnyOrderComesOutSorted` | srad-app/src/resequencer.rs:66-126 | any order of at most 256 consecutive messages from any start comes out sorted, once each, leaving the resequencer empty and Good |
| `ReorderWindow.WindowBoundIsExact` | srad-app/src/resequencer.rs:75-97 | filling the gap before held messages releases, after the gap's own, exactly all that follows without a gap if the last early arrival was below origin + 256; beyond, nothing held is released although it is next |
| `HostTask.NodeTask.DrainResequenceBuffer` | srad-app/src/generic_app.rs:483-497 | the loop hands over what is due until nothing is or a store objects |
| `HostTask.NodeTask.Handle` | srad-app/src/generic_app.rs:627-683 | one turn of the node's task is one step of the specification |
| `HostRuns.RunKeeps` | srad-app/src/generic_app.rs:627-683 | every run, with any clocks, store answers and configuration, keeps the full invariant |
| `HostRuns.StepKeeps` | srad-app/src/generic_app.rs:627-669 | each input keeps numbering, store and device knowledge, times and staleness closure |
| `HostRuns.HandedOverKeeps` | srad-app/src/generic_app.rs:436-481 | handing one due message over keeps the invariant, whatever stores answer |
| `HostRuns.MadeStaleKeeps` | srad-app/src/generic_app.rs:407-425 | going stale keeps it |
| `HostRuns.BirthKeeps` | srad-app/src/generic_app.rs:382-405 | handling a birth keeps it |
| `HostGuarantees.SessionsAreInOrder` | srad-app/src/generic_app.rs:382-548 | session order: between an accepted NBIRTH and the next one or going stale, messages handed over are numbered 1, 2, 3, ... modulo 256, for all arrivals, store outcomes and rebirth decisions |
| `HostGuarantees.NothingHandedWhileStale` | srad-app/src/generic_app.rs:499-519 | nothing is handed over outside a session, with or without resequencing |
| `HostGuarantees.StoresSeeProtocol` | srad-app/src/generic_app.rs:200-481 | store callbacks: data only after a successful birth with no later `set_stale`, no two `set_stale` without a birth between, for the node's store; data only while live for devices' |
| `HostGuarantees.DeviceStateIsRecorded` | srad-app/src/generic_app.rs:200-238 | which devices exist and which are alive is determined by the hand-overs and store answers; node and store staleness agree |
| `HostGuarantees.DeviceDataOutcome` | srad-app/src/generic_app.rs:224-239 | device data, whenever handed over, is refused exactly when the device is unknown, not alive, or its store objects, each objection with its own reason; only data of a live device reaches the store |
| `HostGuarantees.StaleNodesHoldNothing` | srad-app/src/generic_app.rs:407-425 | in every reachable state a stale node has all devices stale, an empty Good resequencer expecting 0, and no timer |
| `HostGuarantees.AcceptedBirthsIncrease` | srad-app/src/generic_app.rs:382-405 | accepted NBIRTH timestamps strictly increase |
| `HostGuarantees.BirthsAreAcceptedExactly` | srad-app/src/generic_app.rs:382-405 | an NBIRTH is accepted exactly when it is newer than every accepted one and the store, unless absent or told before, takes it; then a session starts |
| `HostGuarantees.DueMessagesAreHandedOver` | srad-app/src/generic_app.rs:483-497 | a due message stays buffered exactly when a hand-over was refused while the next message was held, and the rebirth it called for was suppressed or came with a stamp older than the birth |
| `HostGuarantees.StallsArePermanent` | srad-app/src/generic_app.rs:499-548 | once a due message is left behind nothing more is handed over, whatever arrives, before a step that births the node or makes it stale |
| `HostRequests.RequestsAreRateBounded` | srad-app/src/generic_app.rs:327-357 | at most 1 + floor(T / cooldown) rebirth requests in any interval of length T, whatever reasons arise and whatever the clock does |
| `HostRequests.RequestsAreGrantedExactly` | srad-app/src/generic_app.rs:327-357 | an input leads to a rebirth request exactly when it gives an enabled reason and a cooldown has passed since the last request, whatever kind of input it is |
| `HostRequests.StepIsHandledAndDecided` | srad-app/src/generic_app.rs:627-683 | every input is first handled, without regard to rebirths, and then its reason, if there is one, decided on |
| `HostRequests.DisabledReasonsChangeNothing` | srad-app/src/generic_app.rs:148-161 | a disabled reason, whatever raised it, changes nothing: no request, no staleness, no cooldown used up |
| `HostRequests.PanicsExactly` | srad-app/src/generic_app.rs:327-339 | a run panics exactly when some input gives an enabled reason while the clock shows less than at the last request |
| `HostRequests.ClocksThatPanicExactly` | srad-app/src/generic_app.rs:327-339 | with a reason enabled, some inputs make given clock readings panic if and only if a reading is less than an earlier one that was at least the cooldown |
| `HostRequests.SteadyClockNeverPanics` | srad-app/src/generic_app.rs:327-339 | with a clock that does not go back the task never panics |
| `HostTimers.HoldsWithTimerExactly` | srad-app/src/generic_app.rs:359-434 | in every run, a birthed node holding messages has its reorder timer if and only if one is configured and no NDEATH has been handled since a message was last put aside |
| `HostOutcomes.SequencedReasonsExactly` | srad-app/src/generic_app.rs:499-548 | in every run, the reason a sequenced message gives and what it adds to the record: none if it is older than the last accepted birth or stale transition; `RecordedStateStale` outside a session; `ReorderFail` if its number is already held; nothing if it is put aside; otherwise those of the hand-overs it releases, up to the first refusal |
| `HostOutcomes.HandOversHaveTheirOutcome` | srad-app/src/generic_app.rs:436-481 | what a hand-over adds to the record and the reason it gives, for each of NDATA, DBIRTH, DDEATH and DDATA, from the record and the store's answer alone |
| `HostOutcomes.DrainHasItsOutcome` | srad-app/src/generic_app.rs:483-497 | draining is handing over what is due, one after the other, up to the first refusal |
| `HostOutcomes.PutAsideIsHeld` | srad-app/src/generic_app.rs:526-543 | a message that comes early is held from then on, and nothing else is |
| `HostOutcomes.DeathsAreTakenExactly` | srad-app/src/generic_app.rs:407-434 | an NDEATH or the application going offline makes a node stale exactly when it is birthed and the timestamp is not older than the birth: the node's store and those of all devices seen are told; the NDEATH gives a reason exactly when its bdSeq is another than the last birth's |
| `HostOutcomes.BirthsAreTakenExactly` | srad-app/src/generic_app.rs:382-405 | an NBIRTH not newer than the last accepted is ignored; the store is asked about any other unless it repeats the bdSeq of a live session; a refusal gives a reason and changes nothing, and otherwise a session starts |
| `HostOutcomes.ReasonsAreDecidedExactly` | srad-app/src/generic_app.rs:327-357 | what a reason leads to, in every run: nothing if it is disabled or too soon, else a birthed node goes stale, unless the stamp is older than its birth, and then the request is sent; undecodable payloads and expired reorder timers are reasons and nothing else |
| `HostOutcomes.RequestsObeyTheirSwitch` | srad-app/src/generic_app.rs:148-161 | no rebirth is ever requested for a reason whose own switch is off |
| `HostOutcomes.SwitchesAreTheirReasons` | srad-app/src/generic_app.rs:148-161 | setting one switch enables or disables that reason and no other |
| `EdgeRuns.RunKeeps` | srad-eon/src/node.rs:859-892 | every interleaving of event loop, node task, device tasks, handles and cancellation keeps the full invariant |
| `EdgeRuns.StepKeeps` | srad-eon/src/node.rs:859-892 | each step keeps it |
| `EdgeRuns.ReturnedKeeps` | srad-eon/src/node.rs:630-670 | the node task's continuation after each client call keeps it |
| `EdgeRuns.MessageTakenKeeps` | srad-eon/src/node.rs:863-880 | handling Online, Offline and STATE from the event loop keeps it |
| `EdgeRuns.DeviceBirthedKeeps` | srad-eon/src/device.rs:172-209 | a device's birth keeps it |
| `EdgeRuns.DeviceDiedKeeps` | srad-eon/src/device.rs:211-245 | a device's death keeps it |
| `EdgeRuns.HandlesKeep` | srad-eon/src/node.rs:230-276 | numbering node data from a handle keeps it, and so does cancelling, which stops data and makes the NDEATH at one go |
| `EdgeGuarantees.AllocationsAreConsecutive` | srad-eon/src/node.rs:64-74 | numbers handed out since the last `start_birth` are exactly 1, 2, 3, ... modulo 256, under any interleaving |
| `EdgeGuarantees.AllocationsAreGated` | srad-eon/src/device.rs:59-64 | none is handed out offline or unbirthed; device data takes one only after a check that found the device up, each check serving once, and a death only as the device goes down; a device is up only by a DBIRTH that was out |
| `EdgeGuarantees.AllocationIsGrantedExactly` | srad-eon/src/node.rs:64-74 | a number is granted exactly while the record shows a session and a completed birth, and it is the next one |
| `EdgeGuarantees.BirthsAreGated` | srad-eon/src/node.rs:541-670 | every NBIRTH is published on an established session, with the primary host's last accepted STATE since the last disconnection online |
| `EdgeGuarantees.BirthedBetweenTurns` | srad-eon/src/node.rs:91-141 | between turns of the node's task, birthed implies online and the primary host online |
| `EdgeGuarantees.AcceptedStatesAscend` | srad-eon/src/node.rs:108-122 | accepted STATE timestamps never decrease |
| `EdgeGuarantees.StatesAreAcceptedExactly` | srad-eon/src/node.rs:687-712 | a STATE is accepted exactly when it is the primary host's and not older than the last accepted |
| `EdgeGuarantees.RebirthsStartExactly` | srad-eon/src/node.rs:573-600 | a rebirth, asked for or commanded, starts exactly when the node is birthed, and numbering starts again |
| `EdgeGuarantees.DisabledDevicesAreDown` | srad-eon/src/device.rs:291-299 | a disabled device is down, and a device's flag says what its births and deaths say |
| `EdgeGuarantees.WillsAgree` | srad-eon/src/node.rs:147-167 | every NBIRTH, and every NDEATH while there is a connection, carries the bdSeq of that connection's will, which is the number of ended sessions modulo 256 |
| `EdgeGuarantees.WillIsRegisteredBeforeConnecting` | srad-eon/src/node.rs:1006-1015 | whenever the event loop may connect, the registered will carries the node's bdSeq |
| `EdgeStalls.NodeGoesOn` | srad-eon/src/node.rs:630-684 | connected without a session, a node is subscribing or will retry; idle, connected and unbirthed, it will retry or is stuck; stuck although it could be birthed, a rebirth failed or it was cancelled on this connection |
| `EdgeStalls.FailedRebirthSticks` | srad-eon/src/node.rs:541-600 | after a failed rebirth the node is stuck although it could be birthed, and numbers nothing through whatever happens until something frees it; rebirth requests change nothing |
| `EdgeStalls.StuckExactly` | srad-eon/src/node.rs:573-712 | a stuck node stays stuck, and numbers nothing, through any further steps, if and only if none of them takes the end of the connection, a start of one while it may be birthed, or an accepted online STATE of its primary host |
| `EdgeStalls.StepOfStuck` | srad-eon/src/node.rs:630-712 | what frees it: the end of the connection ends the session, the other two start a birth; every other step leaves it stuck |
| `EdgeSteps.DeviceBirthsAreNumberedExactly` | srad-eon/src/device.rs:172-209 | in every run, a device told to be born numbers a DBIRTH with the next number if and only if it is enabled, the node has a session and is birthed, and the device is not up or this is a rebirth; otherwise nothing changes |
| `EdgeSteps.EnabledDevicesAreBirthedExactly` | srad-eon/src/device.rs:291-294 | enabling sets the flag, and then births the device in the same way unless it is up |
| `EdgeSteps.DeviceDeathsAreNumberedExactly` | srad-eon/src/device.rs:211-245 | a device that is up goes down, and its DDEATH takes the next number if and only if it is to be published and the node has a session and is birthed; one that is down is left alone |
| `EdgeSteps.DisabledDevicesDieExactly` | srad-eon/src/device.rs:296-299 | disabling clears the flag, and then the device dies in the same way |
| `EdgeSteps.DeviceCallsEndExactly` | srad-eon/src/device.rs:188-208 | a device whose DBIRTH was out is up exactly when the client took it; the outcome of a DDEATH changes nothing |
| `EdgeSteps.DataPassesExactly` | srad-eon/src/device.rs:59-64 | a publisher of device data passes its check exactly while the device is up |
| `EdgeSteps.DataIsNumberedExactly` | srad-eon/src/device.rs:59-64 | and takes the next number exactly while the node has a session and is birthed |
| `EdgeSteps.NodeDataIsNumberedExactly` | srad-eon/src/node.rs:64-74 | the same for node data, which nothing else holds back |
| `EdgeSteps.RetriesAreSpent` | srad-eon/src/node.rs:881-884 | a retry that fires is spent, and a session is sought: by subscribing, or by a birth if there is a session already |
| `EdgeSteps.MessagesAreTakenExactly` | srad-eon/src/node.rs:672-765 | what comes of Online, Offline and STATE, taken in the order queued, from the record |
| `EdgeSteps.CallsEndExactly` | srad-eon/src/node.rs:541-670 | what comes of each client call the node's task waits for, whether it succeeds or fails |
| `EdgeSteps.RebirthsAreStartedExactly` | srad-eon/src/node.rs:573-600 | a rebirth step starts an NBIRTH with the connection's bdSeq exactly when the node is birthed, and restarts numbering; a commanded one stops data first |
| `EdgeSteps.CancellationsAreSentExactly` | srad-eon/src/node.rs:230-276 | a cancel stops data and sends the NDEATH with the connection's bdSeq, in any state |
| `EdgeSteps.ReportsAreQueuedExactly` | srad-eon/src/node.rs:998-1071 | what the event loop queues, and which will it registers and connects under: the number of ended sessions modulo 256 |
| `EdgeSessions.DataFollowsItsBirthExactly` | srad-eon/src/device.rs:59-209 | from the start of an NBIRTH on, every continuation numbers the device's data only after a DBIRTH of the session, if and only if the device was then down, with no DBIRTH out and no publisher past its check |
| `EdgeSessions.DeathFollowsItsBirthExactly` | srad-eon/src/device.rs:172-245 | likewise for its DDEATH, if and only if the device was down with no DBIRTH out; a device's death, which clears the flag and takes the number, is one step of its task here |
| `EdgeSessions.DataFollowsBirth` | srad-eon/src/device.rs:172-245 | the forward halves, over every record a run can leave |
| `EdgeSessions.DataCanComeFirst` | srad-eon/src/device.rs:188-203 | the converse: for a device not quiet at the start of the birth, the continuation whose first number is its data |
| `EdgeSessions.DeathCanComeFirst` | srad-eon/src/device.rs:211-245 | and the one whose first number is its death |
| `EdgeSessions.RebirthDuringDeviceBirth` | srad-eon/src/device.rs:188-203 | a run that rebirths the node while the DBIRTH of a device that is down is outstanding |
| `EdgeSessions.DataAfterDeath` | srad-eon/src/node.rs:230-276 | a number is handed out after an NDEATH, with no birth started since, only while one sent because the host is gone is outstanding, or after a cancel that came during an NBIRTH |
| `EdgeSessions.DeathClosesExactly` | srad-eon/src/node.rs:230-276 | every continuation of the session numbers nothing more after an NDEATH, if and only if a handle sent it with no NBIRTH outstanding |
| `EdgeSessions.DeathLeavesDataOpen` | srad-eon/src/node.rs:738-765 | the converse: a continuation that numbers data after any other NDEATH |
| `EdgeSessions.CancelDuringBirth` | srad-eon/src/node.rs:541-563 | a run that cancels while the first NBIRTH is outstanding |
| `EdgeSessions.HostGoesOffline` | srad-eon/src/node.rs:738-765 | a birthed node whose primary host goes offline sends its NDEATH before it stops data |
| `EdgeSessions.SessionIsInOrderExactly` | srad-eon/src/device.rs:59-245 | a session in which no death overtakes data numbers births, data and deaths in the order a host needs, whatever happens in it, if and only if every device was quiet at its start |
| `EdgeSessions.OvertakenDataIsOutOfOrder` | srad-eon/src/device.rs:59-64 | a death that overtakes data between its check and its number lets that data be numbered after it |
| `EdgeSessions.DeathOvertakesData` | srad-eon/src/device.rs:59-64 | a run in which a device is disabled while a publisher of its data is between its check and its number |
| `Delivery.EdgeOrderIsHostOrder` | srad-eon/src/node.rs:64-74 | end to end: the messages an edge numbered since a birth, each arriving once in the window in any order with fresh timestamps at stores that accept them, are handed over in the edge's allocation order across any number of wraps, and nothing stays behind |
| `Delivery.EdgeSessionIsAppliedInOrder` | srad-eon/src/device.rs:59-245 | the same from what the edge does alone: if every device not quiet at the start of the session is one the host holds live when it accepts the birth, and no death overtook data, stores that never object are enough |
| `Delivery.SessionIsAcceptedExactly` | srad-app/src/generic_app.rs:382-481 | for any host and stores that never object, everything a session in which no death overtakes data goes on to number is accepted, if and only if every device was quiet at its start or is one the host holds live |
| `Delivery.SessionIsAccepted` | srad-app/src/generic_app.rs:382-481 | the forward half over every record of a run, with what makes it work: a device up, on its way up or with data past its check is held live |
| `Delivery.OvertakenDataIsRefused` | srad-app/src/generic_app.rs:224-239 | a death that overtakes data lets the session go on so that it is refused, by any host and any stores; as data of a stale device, if nothing was refused before |
| `Delivery.OrderIsCarried` | srad-eon/src/device.rs:59-245 | numbers in order are messages in order, for any injective naming of devices |
| `Delivery.HostAppliesInSendingOrder` | srad-app/src/generic_app.rs:499-548 | with some still missing, the host is exactly what handing over the longest gap-free run in sending order makes of it |
| `Delivery.EverythingSentIsApplied` | srad-app/src/generic_app.rs:499-548 | with all arrived, it is what handing over everything in order makes of it, with an empty Good resequencer and no timer |
| `Delivery.MessageIsApplied` | srad-app/src/generic_app.rs:499-548 | handling one message moves the resequencer and the stores independently |
| `Delivery.DrainIsApplied` | srad-app/src/generic_app.rs:483-497 | draining hands over exactly what the resequencer has due, in order |
| `Delivery.OrderlyMessagesAreAccepted` | srad-app/src/generic_app.rs:436-481 | stores that always accept refuse no sequence in which devices are born before they send data or die |
| `AppSessionRuns.StepKeeps` | srad-app/src/eventloop.rs:390-495 | each step keeps the machine's invariant, unconditionally; and the stronger one unless it takes an older result that misleads |
| `AppSessionRuns.RunKeeps` | srad-app/src/eventloop.rs:390-495 | every run keeps the machine's invariant, however late results are taken |
| `AppSessionRuns.NeverSticks` | srad-app/src/eventloop.rs:296-353 | connected but not online implies an attempt in flight, whose task will report under the expected number, or a retry scheduled; in every run |
| `AppSessionRuns.RetriesAreSpent` | srad-app/src/eventloop.rs:489-491 | a retry that fires is spent; with the client online and the application not, it starts a new attempt with the registered will's timestamp, otherwise none |
| `AppSessionRuns.AttemptsStartExactly` | srad-app/src/eventloop.rs:296-330 | in every run, a step starts an attempt exactly when the client comes online, or a retry fires while it is, the user has not been told it is online, no attempt is in flight and no other retry is to come |
| `AppSessionRuns.ResultsAreTakenExactly` | srad-app/src/eventloop.rs:467-488 | a result on a live connection that bears the current number is told or retried; every other one changes nothing |
| `AppSessionRuns.ConnectionsEndExactly` | srad-app/src/eventloop.rs:355-366 | the end of a connection invalidates what is in flight, and is told, with a new will, exactly to a user who was told online |
| `AppSessionRuns.OneTaskPerNumber` | srad-app/src/eventloop.rs:193-195 | an attempt in flight has exactly one outstanding task under its number among those less than 2^64 attempts old |
| `AppSessionRuns.OlderResultsChangeNothing` | srad-app/src/eventloop.rs:468-471 | an older result changes nothing exactly when it is not a whole number of counter turns old; otherwise a success is reported |
| `AppSessionRuns.OnlineAndOfflineAlternate` | srad-app/src/eventloop.rs:332-366 | user-visible Online and Offline strictly alternate, starting with Online, if and only if no success is taken as current while already online |
| `AppSessionRuns.RepublishesWhileOnline` | srad-app/src/eventloop.rs:412-433 | the application answers its own death if and only if it has reported itself online and no failure has been taken as current since |
| `AppSessionRuns.OnlineCarriesWillTimestamp` | srad-app/src/eventloop.rs:266-273 | a session reported online published the timestamp of the will registered when its attempt was started; for the current attempt, of the will registered now |
| `AppSessionRuns.SoundnessIsLostExactly` | srad-app/src/eventloop.rs:467-488 | after a run without misleading results, a step misleads if and only if alternation or publication is lost by it, or by the current attempt's success right after it |
| `AppSessionRuns.PromptResultsDoNotMislead` | srad-app/src/eventloop.rs:467-471 | a result taken within 2^64 attempts never misleads |
| `AppSessionRuns.AStaleResultCanPassForCurrent` | srad-app/src/eventloop.rs:467-488 | a run in which a result one whole turn old is taken for the current one and Online is reported twice |
| `Values.DecodeEncode` | srad-types/src/value.rs:101-179 | every scalar of every basic type survives its payload field, sign- or zero-extended |
| `Values.DecodesByLowBits` | srad-types/src/value.rs:144-164 | two fields decode alike exactly when they agree in the bits of the type |
| `Values.CoercedLongIsRead` | srad-types/src/value.rs:684-702 | a narrow integer sent sign-extended in the wide field is read back |
| `Values.CoercedIntIsRead` | srad-types/src/value.rs:684-702 | a 64-bit integer sent in the narrow field is read back exactly when it is not negative |
| `Values.CoercionKeepsEncodings` | srad-types/src/value.rs:684-702 | coercion leaves proper encodings alone, and every field of a type that is not an integer |
| `Values.IntegersTravelInTwosComplement` | srad-types/src/value.rs:101-179 | integers are sent in two's complement, in 64 bits for 64-bit types and dates and in 32 for all others |
| `TemplateTask.Target.UpdateFromInstance` | srad-macros/src/lib.rs:664-695 | the generated in-place update; a failing one leaves the target as it was |
| `TemplateTask.ReadInstance` | srad-macros/src/lib.rs:664-732 | the generated loops over parameters and metrics compute the specification, with the first error that occurs |
| `TemplateTask.ReceiveMetric` | srad-macros/src/lib.rs:541-559 | nested templates are updated on a copy |
| `TemplateTask.CreateFromInstance` | srad-macros/src/lib.rs:699-732 | the generated `TryFrom` |
| `TemplateAcceptance.AcceptsExactly` | srad-macros/src/lib.rs:664-732 | an instance is accepted, by an update or by `TryFrom`, if and only if reference and version are the template's, every parameter entry names a parameter and every metric entry a metric, and each carries a value for it, at every level; otherwise it is refused for the reference, the version, or its first wrong entry, in this order |
| `TemplateAcceptance.OtherTemplatesAreRefused` | srad-macros/src/lib.rs:664-673 | an instance of another template gives `RefMismatch`, one of another version `VersionMismatch`, whatever else it holds |
| `TemplateAcceptance.LastEntryArrives` | srad-macros/src/lib.rs:674-695 | what an accepted instance makes of a field: the value of the last entry that names it, on top of what the field was; untouched if none does |
| `TemplateAcceptance.MetricsCarryTheirType` | srad-macros/src/lib.rs:527-541 | every metric sent is one of the template's, under its type's number |
| `TemplateAcceptance.ParametersCarryTheirType` | srad-macros/src/lib.rs:480-490 | and every parameter sent likewise |
| `TemplateLaws.DifferencePatches` | srad-macros/src/lib.rs:644-695 | the difference is None exactly when all unskipped fields agree at every level; otherwise applying it to b succeeds, gives a's unskipped fields with b's skipped ones, and leaves no difference |
| `TemplateLaws.WholeInstancePatches` | srad-macros/src/lib.rs:625-695 | the whole instance patches likewise |
| `TemplateLaws.InstanceRoundTrips` | srad-macros/src/lib.rs:625-733 | `try_from(template_instance(t))` is t but for skipped fields, which are at their defaults at every level |
| `TemplateLaws.NoDifferenceMeansAgree` | srad-macros/src/lib.rs:590-605 | no difference exactly when the records agree, through nested templates |
| `TemplateLaws.ValueArrives` | srad-types/src/template.rs:138-207 | the value sent for one field, received on top of another, merges the two: scalars, options and nested templates |
| `TemplateLaws.InstanceArrives` | srad-macros/src/lib.rs:625-733 | an instance of either extent arrives as the merge of the two records |
| `TemplateLaws.MergedIs` | srad-macros/src/lib.rs:664-695 | the merge agrees with one side in the unskipped fields and equals the other in the skipped ones |
| `TemplateLaws.AgreeAndSameSkipped` | srad-macros/src/lib.rs:664-695 | agreement and equal skipped fields together are equality, so the two pin the result down |
| `TemplateLaws.DifferenceNamesMetrics` | srad-macros/src/lib.rs:527-541 | a difference mentions exactly the metrics that differ |
| `TemplateLaws.DifferenceNamesParameters` | srad-macros/src/lib.rs:480-490 | and exactly the parameters that differ |
| `TemplateLaws.UpdatesKeepSkipped` | srad-macros/src/lib.rs:664-695 | whatever an instance says, a successful update keeps every skipped field at every level |
| `TemplateLaws.UpdatesKeepTheUnmentioned` | srad-macros/src/lib.rs:664-695 | and every field the instance does not mention |
| `NumberArrays.Encode` | srad-types/src/value.rs:203-207 | the encoding loop |
| `NumberArrays.Decode` | srad-types/src/value.rs:209-216 | the decoding loop, refusing a partial last chunk |
| `NumberArrays.DecodeOfEncode` | srad-types/src/value.rs:200-230 | every array of fixed-width numbers, signed or not, survives little-endian encoding |
| `NumberArrays.EncodeOfDecode` | srad-types/src/value.rs:200-230 | decoding accepts exactly whole chunks, refuses the rest as of invalid format, and what it accepts re-encodes to the same bytes |
| `NumberArrays.EncodingByByte` | srad-types/src/value.rs:203-207 | every byte of an encoding: number after number, the least significant byte first |
| `BooleanArrays.PackByteWithBool` | srad-types/src/value.rs:232-237 | the packing loop |
| `BooleanArrays.EncodeBools` | srad-types/src/value.rs:239-253 | the encoding loop, the count reduced modulo 2^32 |
| `BooleanArrays.DecodeBools` | srad-types/src/value.rs:255-284 | the decoding loops |
| `BooleanArrays.BitOfPack` | srad-types/src/value.rs:232-237 | each packed value is found at its place and the padding is zero |
| `BooleanArrays.EncodingIsRead` | srad-types/src/value.rs:255-284 | what comes out of an encoding is its beginning, of a stated length |
| `BooleanArrays.RoundTripsExactly` | srad-types/src/value.rs:239-284 | an array of any length survives exactly when it is empty or its length is not a multiple of eight |
| `BooleanArrays.MultiplesOfEightLoseEight` | srad-types/src/value.rs:274-282 | otherwise the last eight values are lost, or all when the count wraps to zero |
| `BooleanArrays.CorrectedRoundTrips` | srad-types/src/value.rs:278-282 | taking eight values from the last byte in that case cures it for every count that fits |
| `BooleanArrays.DecoderAccepts` | srad-types/src/value.rs:255-273 | which byte strings are accepted, how many values they give, padding bytes included, and the error otherwise |
| `BooleanArrays.DecodedBitByBit` | srad-types/src/value.rs:264-284 | each value decoded is the bit at its place, counted from the fifth byte on, whoever made the bytes |
| `StringArrays.EncodeStrings` | srad-types/src/value.rs:286-295 | the encoding loop |
| `StringArrays.DecodeStrings` | srad-types/src/value.rs:297-316 | the decoding loop |
| `StringArrays.StringsRoundTripExactly` | srad-types/src/value.rs:286-316 | an array of strings survives exactly when none holds a zero byte |
| `StringArrays.EncodeOfDecode` | srad-types/src/value.rs:297-316 | decoding accepts exactly empty or zero-terminated bytes with valid pieces, and re-encodes to the same bytes |
| `StringArrays.RefusalsHaveTheirReason` | srad-types/src/value.rs:297-316 | bytes are refused for a missing terminator, or else for a piece that is not valid |
| `Splitting.SplitOfJoin` | srad-types/src/value.rs:297-316 | splitting undoes joining when no piece holds the separator |
| `Splitting.JoinOfSplit` | srad-client/src/utils.rs:55-57 | joining always undoes splitting |
| `DataSetTask.TypedDataSet.TryAddRow` | srad-types/src/dataset.rs:293-296 | appended exactly when it fits; otherwise the error and no change |
| `DataSetTask.TypedDataSet.ToDataSet` | srad-types/src/dataset.rs:322-332 | the loop builds the payload of schema and rows |
| `DataSetTask.TryFromRow` | srad-macros/src/lib.rs:326-340 | the first column that cannot be decoded decides the error |
| `DataSetTask.TryFromDataSet` | srad-types/src/dataset.rs:393-444 | the checks in order, each with its error, then the rows |
| `DataSets.FitsExactly` | srad-types/src/dataset.rs:532-540 | Int8 and Int16 columns accept exactly zero-extended and sign-extended values |
| `DataSets.MatchesExactly` | srad-types/src/dataset.rs:509-526 | an element matches exactly when it is its value's own encoding, or for Int8 and Int16 the zero-extended one |
| `DataSets.RowRoundTrips` | srad-macros/src/lib.rs:303-345 | rows survive but for skipped fields |
| `DataSets.RowDecodes` | srad-types/src/dataset.rs:545-587 | a row decodes exactly when its length and every element fit |
| `DataSets.RowsRoundTrip` | srad-types/src/dataset.rs:322-332 | `TryFrom(into_data_set(rows))` returns the rows, for every schema |
| `DataSets.AcceptsExactly` | srad-types/src/dataset.rs:393-444 | the decoder accepts exactly the datasets whose counts, names, types, row lengths and element encodings fit |
| `DataSets.WrongCountsDecide` | srad-types/src/dataset.rs:397-415 | wrong counts are refused first: the stated number of columns, the names, the types |
| `DataSets.FirstWrongColumnDecides` | srad-types/src/dataset.rs:416-434 | then the first wrong name, and then the first wrong type |
| `DataSets.RowsAreRefusedExactly` | srad-types/src/dataset.rs:545-587 | a row is refused for its length, or else for its first element that is missing or does not fit |
| `DataSets.FirstWrongRowDecides` | srad-types/src/dataset.rs:435-442 | with the header right, the first row that does not fit decides |
| `DataSets.DecodeEncodeDecode` | srad-types/src/dataset.rs:393-444 | decode, encode, decode equals decode |
| `Topics.TopicToEvent` | srad-client/src/utils.rs:55-245 | the parser with its early exits |
| `Topics.NodeTopicParsesExactly` | srad-types/src/topic.rs:166-172 | a printed node topic of valid names parses to its node event, or to `DecodePayloadError` exactly when decoding is asked for and fails, if and only if the group is not STATE |
| `Topics.DeviceTopicParsesExactly` | srad-types/src/topic.rs:174-182 | likewise for device topics and their device |
| `Topics.StateTopicParses` | srad-types/src/topic.rs:184-186 | a host's STATE topic parses to that host, or to an invalid certificate |
| `Topics.PrintingIsInjective` | srad-types/src/topic.rs:166-182 | printed topics of valid names tell group, kind, node and device apart |
| `Topics.ParsedTopicsReprint` | srad-client/src/utils.rs:55-245 | any topic under the prefix taken for a node or device message prints as it came |
| `Topics.PartParses` | srad-client/src/utils.rs:17-36 | every known kind is read back from its message part |
| `Topics.PrefixAndExcessAreIgnored` | srad-client/src/utils.rs:55-104 | the parser looks neither at the prefix nor beyond a STATE topic's host |
| `Topics.ValidateName` | srad-types/src/utils.rs:12-24 | the checking loop: a name is valid exactly when it is not empty and holds none of the three reserved characters |
| `Topics.EventsAreGivenExactly` | srad-client/src/utils.rs:55-245 | for every topic, which event it gives: a node's, a device's or a host's exactly when the pieces after the first are that message's and valid UTF-8, and the payload is what is asked of it |
| `Topics.DecodingRefusesExactly` | srad-client/src/utils.rs:38-53 | decoding payloads refuses node and device messages whose payload does not decode, and nothing else |
| `Topics.FirstFaultDecides` | srad-client/src/utils.rs:55-245 | of the pieces that are missing, too many, no message part or not valid UTF-8, the first decides what a topic is refused with |
| `Topics.FaultlessTopicsAreTaken` | srad-client/src/utils.rs:38-53 | without such a piece, only a payload that should decode and does not, or a certificate that does not, is refused |
| `Topics.NodeTopicsOfTheNamespace` | srad-types/src/topic.rs:166-186 | the printed node and STATE topics, written out |
| `Topics.DeviceTopicsOfTheNamespace` | srad-types/src/topic.rs:174-182 | the printed device topics, written out |
| `Probing.Probe` | srad-eon/src/birth.rs:193-197 | the probing loop finds the first free number, trying at most one candidate more than are taken |
| `Probing.TakenInARow` | srad-eon/src/birth.rs:193-197 | pigeonhole: at most as many candidates in a row can be taken as numbers are |
| `Probing.ParkingTheorem` | srad-eon/src/birth.rs:193-197 | everyone finds a place in a block exactly when, from every place on, no more want one than there are |
| `DeviceIds.DeviceMap.GenerateDeviceId` | srad-eon/src/device.rs:375-384 | the first free non-zero id from the hash, within |ids| + 2 candidates |
| `DeviceIds.DeviceMap.AddDevice` | srad-eon/src/device.rs:390-445 | duplicate names refused without probing, otherwise registered under a new id |
| `DeviceIds.IdsStayDistinct` | srad-eon/src/device.rs:375-458 | over any run of additions and removals, ids are non-zero, distinct and exactly the devices' |
| `DeviceIds.DevicesChangeExactly` | srad-eon/src/device.rs:375-458 | in every run, adding a registered name changes nothing and any other gets the first free id from its hash on; removing frees the id; no other device is touched |
| `DeviceIds.ProbingEnds` | srad-eon/src/device.rs:375-384 | probing ends unless all 2^32 - 1 ids are in use |
| `Aliases.BirthInitializer.GenerateAlias` | srad-eon/src/birth.rs:184-198 | the first free alias from the object's block and the name's hash, within |aliases| + 1 candidates |
| `Aliases.BirthNamesAreDistinct` | srad-eon/src/birth.rs:200-249 | names in a birth are distinct, definitions included |
| `Aliases.RegistrationsEndExactly` | srad-eon/src/birth.rs:200-311 | in every run, which error a registration gives, and then nothing has changed; otherwise one metric more, with the alias its setting says |
| `Aliases.GeneratedAreDistinct` | srad-eon/src/birth.rs:184-198 | generated aliases of one object are always distinct |
| `Aliases.StayInBlockExactly` | srad-eon/src/birth.rs:184-198 | they stay in the object's block of 2^32 exactly when the hashes leave room from every place on |
| `Aliases.GeneratedDifferAcrossObjects` | srad-eon/src/birth.rs:184-198 | objects whose hashes leave room have different generated aliases |
| `Aliases.ApartExactly` | srad-eon/src/birth.rs:184-198 | generated aliases differ from those of every other object that has room for its own, if and only if the object has room for its own |
| `Aliases.GeneratedDifferAcrossNodeExactly` | srad-eon/src/birth.rs:22-24 | the same for the node and its registered devices, whatever devices come and go besides, for a hash with unused names of every value |
| `Aliases.CustomIsCheckedAgainstGenerated` | srad-eon/src/birth.rs:220-225 | a custom alias is refused exactly when it was generated before |
| `Aliases.CustomAliasesCanRepeat` | srad-eon/src/birth.rs:220-225 | two metrics can be given one custom alias, and a generated alias can repeat it |
| `Aliases.BirthAliasesAreDistinctExactly` | srad-eon/src/birth.rs:184-229 | all aliases of a birth are distinct if and only if the accepted custom ones are pairwise distinct and none of them is what probing makes of the hashes, in whatever order both are registered |
| `Aliases.CarriedAliasesCanCollide` | srad-eon/src/birth.rs:193-196 | when probing carries out of a block, it can meet the next object's aliases |

## Left out

- MQTT transport, the rumqtt adapter, the channel client and tokio's scheduling: client calls are steps that succeed or fail.
- Protobuf and JSON decoding, field-presence checks of payloads and metrics: the model starts from decoded records.
- Wire order of messages published concurrently by one edge node: numbering and publishing are separate, so only the order of numbering is a property of this code.
- The bounded channels between an edge node's event loop and its task: the queue is unbounded, which allows every interleaving the bounded one does.
- Messages from a node to its devices: a device may be told to be born or to die at any moment, which includes every moment it is told; a removed device is one that is told nothing more.
- The rebirth cooldown and the reading of NCMD metrics on the edge (srad-eon/src/node.rs:767-847): a commanded rebirth may come at any time.
- The shutdown of `EoN::run` and of `AppEventLoop::poll` after cancellation: runs end before it.
- Node creation, subscription configuration, callbacks and the forwarding of events by the host application (srad-app/src/generic_app.rs:706-1012).
- Objects of devices on the host: a node's devices are values in a map, so sharing a device with its callback is not modelled; telling all devices to go stale is one action, without the order of the hash map.
- `check_template_metrics` and the template registry: registered definitions come as a flag of each registration.
- Token generation and attribute parsing of the derive macros: the model is of the generated code over a schema.
- Floating-point comparison: numbers are bit patterns, so a NaN equals itself in template differences.
- UTF-8 validation: an arbitrary predicate on byte strings.
- `PropertySet`, `Quality`, metadata, builders, `SimpleMetricManager`, and the metric fields a template ignores: single-branch code.
- `u8` arrays, which are their own encoding.
- Delivery.EdgeOrderIsHostOrder: assumes that nothing but these messages reaches the host meanwhile, the reorder timeout included, and that the stores accept the messages in the order of numbering; `Delivery.SessionIsAcceptedExactly` says when they do.
- EdgeSessions.SessionIsInOrderExactly: speaks of sessions in which no death overtakes data, because any session in which a device comes up can contain one.
- EdgeSessions.DeathFollowsItsBirthExactly: does not capture a death whose task is preempted between clearing the device's flag and taking a number (srad-eon/src/device.rs:216-228), which could number it into the next session.
- Delivery.EdgeSessionIsAppliedInOrder: names devices injectively, which fails where a device is registered again under a removed device's name while the removed one's DDEATH is outstanding.
- DeviceIds.DeviceMap.AddDevice: requires a free id when it has to probe, because probing would not end otherwise; ids wrap at 2^32 as they do without overflow checks, whereas a build with overflow checks would panic there.
- Aliases.BirthInitializer.GenerateAlias: requires a free alias, and wraps at 2^64 likewise.
