# Dish input path: a verified model

Dish streams game controllers to a host. Input arrives on lock-free hot threads while a GUI thread rewires where
that input goes. This project models the parts of Dish where that is hard to get right and proves what they promise:

- the **device registry** (`DeviceRegistry`, `RegistryAgreement`, `RegistryAlone`): a table of 64 records claimed,
  written, published and given back by any number of threads inside `add` at once, one atomic access per step;
- the **input processor** (`DeviceRecord`, `InputProcessor`, `ProcessorTrace`, `MotionGate`, `TouchGate`): one record's
  repeat filter, activity reference, motion gate, zeroing and re-plugging, and the object that holds the table;
- **route publication** (`RoutePublication`, `RouteTable`, `Participants`): an immutable table published through two
  pointers and reclaimed behind two grace epochs, what a build puts in it, and the allocators of epoch participants;
- the **reaper** of retired clients (`ClientReaper`) with the wake-up it sleeps on, and the **sequence lock** (`Seqlock`);
- the **SDL pump** (`ControllerShadow`, `DirtySet`, `PadTable`, `PadTracking`, `PumpCoalescing`, `SDLGamepadBridge`): the
  pad table, the event shadow that replaces SDL's getters, one report per pad per cycle, and suppression of claimed twins;
- the **bindings** (`ConnectionHub`) and the **joystick remap** (`JoystickMapping`).

`Basics`, `DeviceTypes` and `Bits` hold shared types and the laws of 64-bit words read as sets of slots.

Concurrent code is a state machine: one step is one atomic access (or one critical section) of one thread, a run is any
sequence of steps, and the theorems quantify over all runs. Objects whose methods change their fields are classes, each
method proved against a function of the old state, and the theorems are about those functions. Everything that comes
from outside (clocks, SDL's events and getters, hash iteration order, a session's send target, a spurious exchange
failure, a seqlock reader giving up) is a parameter, and the theorems hold for every value of it.

## Where the code does not do what one might expect

Each of these is stated as the exact condition, with a concrete case where one was needed.

- Adds for one id always agree exactly when at most one id has two calls and none has more (`AddsAgreeIff`). Three calls
  for one id can be answered differently, and so can the second of two doubled ids, even when each of two threads adds
  the two ids one after the other (`ThreeCanDisagree`, `TwoPairsCanDisagree`, `TwoScriptsCanDisagree`).
- `zeroAndSendAll` reaches the report sender only: a press, a zero and a release leave the sink holding the press
  (`SinkHoldsLatestIff`, `SinkKeepsPress`). The first report of a plug is not always sent, as the header says it is: a
  neutral one is held back exactly if a zero came after the plug, or came before it and nobody observed it
  (`FirstReportGoesIff`, `TakenOverIsLikeNew`, and for the sender over whole runs `SenderHoldsLatestIff`).
- Motion deltas saturate at 32 bits, so they add up to the elapsed time only while every gap fits (`DeltasSumToElapsed`).
- `bind` tests the slot it displaces with `isEmpty()`, so a connection on the slot with the empty id is not moved off it
  (`BindInjectiveIff`, `EmptySlotKeepsItsBinding`). Rebinding a slot leaves its old session attached (`BindAgreesIff`,
  `RunsAgreeIff`), and a session that is then bound elsewhere and later back to that slot sends nothing from it
  (`SessionFollowsIff`, `ReturningLosesInput`).
- Letting a suppressed pad go reports nothing by itself, so its receiver can keep an old press until the pad next moves
  (`CaughtUpIff`, `LetGoReportsNothing`).
- A client retired after the reaper's last take, and only such a one, is never closed: a retire after the stop but before
  that take still is (`RetiredIsClosedIff`, `ExitsWithNothingLeftIff`, `LateRetireCanBeLost`).
- Assigning one right-stick axis or one trigger clears the adaptive guess for both, so the sibling changes too on a pad
  with fewer than six axes (`AssigningRightAxisKeepsOtherIff`, `AssigningTriggerKeepsOtherIff`).
- A contact whose first event is a motion keeps the last contact's tracking id (`ContactsDifferIff`).

## Model

| member | source | states |
|---|---|---|
| DeviceRegistry.AddsAgree | src/Input/GamepadInputProcessor.cpp:86-122 | in every interleaving in which at most one id has two threads, all indices ever returned for an id are equal and the record there is Live with that id |
| RegistryAgreement.AddsAgreeIff | src/Input/GamepadInputProcessor.cpp:86-122 | for any threads and any ids, without a precondition: every run answers every id with one Live record exactly when at most one id that fits has two threads and none has more |
| DeviceRegistry.OneRecordPerId | src/Input/GamepadInputProcessor.cpp:86-122 | once every call for an id is done, at most one Live record carries it |
| RegistryAlone.AloneIsWholeStep | src/Input/GamepadInputProcessor.cpp:70-122 | from any state with no other call under way, a call by one thread alone ends with the records and the answer of the processor's add taken as one step: found, the lowest free record, or refused |
| RegistryAgreement.ThreeCanDisagree | src/Input/GamepadInputProcessor.cpp:86-122 | any three threads with one id that fits have a run that answers two of them differently |
| RegistryAgreement.TwoPairsCanDisagree | src/Input/GamepadInputProcessor.cpp:86-122 | any two threads with one id and two with another have a run that answers the second pair differently, even with each of its calls after one of the first pair's |
| RegistryAgreement.TwoScriptsCanDisagree | src/Input/GamepadInputProcessor.cpp:86-122 | two threads that each add one id and then another can get different indices for the second |
| RegistryAgreement.TwoScriptsAgree | src/Input/GamepadInputProcessor.cpp:86-122 | two threads that each add a list of different ids always agree if at most one id is on both lists |
| DeviceRegistry.NoDeadlock | src/Input/GamepadInputProcessor.cpp:92-119 | for any threads and ids: a call that cannot move waits for a strictly lower record that exactly one other thread is writing and can go on writing, so some unfinished call can always move |
| DeviceRegistry.CallsEnd | src/Input/GamepadInputProcessor.cpp:62-122 | however long a run in which no call restarts, the moves made that are not waits and those the calls can still make never add up to more than the calls began with: no call goes on for ever |
| DeviceRegistry.RunOwned | src/Input/GamepadInputProcessor.cpp:92-119 | every run keeps: a Claimed record has exactly one thread writing its id, no two threads hold one record, and a held record's status is what its holder's place says |
| DeviceRegistry.RunPaired | src/Input/GamepadInputProcessor.cpp:86-122 | every run of the two-thread case keeps the full invariant of winners, losers, finders and answers |
| DeviceRegistry.MoveLowersRank | src/Input/GamepadInputProcessor.cpp:62-122 | every move that does not wait and does not restart a call brings it closer to its answer |
| DeviceRegistry.OwnedWaits | src/Input/GamepadInputProcessor.cpp:110-119 | a thread that cannot move is in the check of lower records, waiting for one below its own that exactly one other thread is writing and can go on writing |
| RoutePublication.NoUseAfterRelease | src/SlotRouter.cpp:50-55 | in every interleaving of republishes, router destruction, heartbeats and device, session and mic brackets, no table is released while any of them may read it |
| RoutePublication.RepublishTakesEffect | src/SlotRouter.cpp:232-247 | for every run, counting the republishes it began: once they have returned the last one's table is published, every open bracket that has loaded reads it, and exactly the tables before it have been released |
| RoutePublication.NewBracketsReadNewest | src/SlotRouter.cpp:232-247 | a bracket entered and loaded then, of a device, session or mic participant, holds the last republish's table |
| RoutePublication.TasksComplete | src/SlotRouter.cpp:232-247 | with no bracket open the GUI thread alone carries each task through: a republish publishes one more table, the heartbeat reads the newest, destruction ends with the router gone |
| RoutePublication.GuiProgresses | src/core/thread/GraceEpoch.h:36-46 | every move of a busy GUI thread brings its return nearer unless it waits for a bracket still open |
| RoutePublication.SilentAfterRouter | src/SlotRouter.cpp:419-426 | once the router is gone no bracket, then or ever after, holds a table: a mic sender kept past it sends nothing; and no table leaks |
| RoutePublication.WaitNotStarved | src/core/thread/GraceEpoch.h:36-46 | the wait passes a participant as soon as the bracket it saw has closed, whatever brackets that participant opens before the wait looks again |
| RoutePublication.RunKeepsInv | src/SlotRouter.cpp:321-336 | every run keeps: a bracket still holding the old table is at or above the participant the wait has reached, and epochs are odd exactly inside brackets |
| RoutePublication.InvProtects | src/SlotRouter.cpp:467-474 | a table in use is one the publisher still keeps, and every table built is either kept or released |
| Participants.LeasesAreExclusive | src/SlotRouter.cpp:405-447 | in every interleaving of mic-sender creations, copies and drops, with failing exchanges, no two live leases share a participant and the word's set bits are exactly the participants held |
| Participants.RefusedOnlyWhenFull | src/SlotRouter.cpp:434-440 | a sender is refused only if all 64 participants were held at a moment inside its own call, from which on it had the full word in hand |
| Participants.GrantedLowestFree | src/SlotRouter.cpp:439-443 | a sender that is granted gets the lowest participant nobody held |
| Participants.TryingAtOnceDecides | src/SlotRouter.cpp:433-443 | a thread that loads the word and tries at once gets one new lease, unless every participant is held, and then it is refused |
| Participants.NextTryDecides | src/SlotRouter.cpp:433-443 | a thread whose exchange failed, spuriously or not, is decided by its next undisturbed try |
| Participants.LeasesCountCopies | src/SlotRouter.cpp:403-414 | in every interleaving a lease is alive exactly while copies of its sender are about, and counts them |
| Participants.LastDropFrees | src/SlotRouter.cpp:409-411 | dropping a sender's last copy frees its participant and no other; dropping one of several frees none |
| Participants.SessionTable.InstallFeedbackHandlers | src/SlotRouter.cpp:478-489 | the answer and the new table of one install, with the full table answering none |
| Participants.SessionsAreExclusive | src/SlotRouter.cpp:478-489 | over every run of installs no two sessions share a participant, and all lie in 64 to 127, apart from the device indices |
| Participants.AnswerByFirstAsk | src/SlotRouter.cpp:478-489 | a session's answer is for ever 64 plus the number of different sessions that asked before it first did, or none if that is 64 or more |
| Bits.LowestClear | src/SlotRouter.cpp:437-439 | counting trailing ones finds the lowest clear slot, 64 exactly on a full word |
| Bits.LowestSet | src/core/input/DirtySet.h:33-40 | counting trailing zeros finds the lowest set slot, and masking with the word less one removes exactly that one |
| Bits.MembersUpdate | src/SlotRouter.cpp:409-411 | setting or clearing a slot's bit adds or removes that slot and no other |
| RouteTable.Build | src/SlotRouter.cpp:203-230 | the loops over slots and bindings produce the table the specification describes, adding each slot to the registry on the way |
| RouteTable.FillInputs | src/SlotRouter.cpp:206-223 | inputs and mics after the loop over the slots, with each way a slot is skipped |
| RouteTable.FillFeedback | src/SlotRouter.cpp:224-228 | one feedback route per binding, in the hash's order |
| RouteTable.TableRefinesLookup | src/SlotRouter.cpp:203-230 | the route at every index is the one the binding and session of the slot Live there give, if it was on screen, and none otherwise; and stays so however many devices are added later |
| RouteTable.ReportsFollowBinding | src/SlotRouter.cpp:321-355 | a device's reports go to its bound session, to its Moonlight host only when the table gives no session; motion the same, past the session's switch or to a host with a motion sender |
| RouteTable.FeedbackFollowsBinding | src/SlotRouter.cpp:59-65 | after every run of binds and unbinds that overlooks no slot, a session's feedback goes to exactly the slot of its own last bind, on screen or not, to the lowest record Live with its id, with the slot's rumble switch |
| RouteTable.MicForRefinesLookup | src/SlotRouter.cpp:67-72 | the mic route of a slot on screen is the target of the session it is bound to, even if the registry had no place for it; none exactly if it is bound to no session that can be sent to |
| RouteTable.FindFeedback | src/SlotRouter.cpp:59-65 | the walk finds the first route of the connection, or none |
| RouteTable.FindMic | src/SlotRouter.cpp:67-72 | the walk finds the first route of the slot, or none |
| RouteTable.MoonlightRoutes.Set | src/SlotRouter.cpp:249-260 | routes with a report sender are kept, routes without one are taken away, and the flag says whether any are left |
| RouteTable.MoonlightRoutes.Report | src/SlotRouter.cpp:312-336 | the destination of one report |
| RouteTable.MoonlightRoutes.Motion | src/SlotRouter.cpp:338-355 | the destination of one motion sample: a session route with motion off takes it and drops it, a Moonlight route without a motion sender too |
| RouteTable.AddsEffect | src/Input/GamepadInputProcessor.cpp:89-122 | adding devices moves none that are Live, keeps ids unique, and a device that found no place finds none later |
| DeviceRecord.ReportsAreDeduplicated | src/Input/GamepadInputProcessor.cpp:144-187 | within one plug and without zeroing, the reports that leave are the dead-zoned inputs with consecutive repeats removed, so a receiver of the last one holds the latest |
| DeviceRecord.SenderHoldsLatestIff | src/Input/GamepadInputProcessor.cpp:144-187 | with zeros and re-plugs interleaved in any way, the sender's last report after a publish is the latest dead-zoned state, except exactly when that is neutral, the plug began with a zero unobserved and nothing has gone to the sender since |
| DeviceRecord.LatchOrBehind | src/Input/GamepadInputProcessor.cpp:144-187 | over every run the latch is the sender's last report of the plug, or neutral where the plug began with a zero unobserved and nothing was sent since |
| DeviceRecord.SenderHoldsLatest | src/Input/GamepadInputProcessor.cpp:153-186 | so after every publish the sender's last report is the latest dead-zoned state if each zero is observed before the record is freed |
| DeviceRecord.LatchStep | src/Input/GamepadInputProcessor.cpp:144-187 | how each event moves the latch, what it lets out to the sink and the sender, and when a zero is left pending |
| DeviceRecord.FirstReportOfPlugGoesIff | src/Input/GamepadInputProcessor.cpp:144-187 | whatever but a report or a re-plug comes first, the first report of a plug goes out exactly unless it is neutral and a zero was pending at the plug or came since |
| DeviceRecord.FirstReportGoesIff | src/Input/GamepadInputProcessor.cpp:144-187 | the same counted from the re-plug that frees the record and takes it again |
| DeviceRecord.SinkHoldsLatestIff | src/Input/GamepadInputProcessor.cpp:278-288 | within any plug, also one that began with a zero unobserved, the sink holds the latest state after a publish exactly unless that is neutral, a zero came behind the sink's last report and that one was not neutral |
| DeviceRecord.SinkKeepsPress | src/Input/GamepadInputProcessor.cpp:278-288 | press, zero, release: the sink is left with the press |
| DeviceRecord.TakenOverIsLikeNew | src/Input/GamepadInputProcessor.cpp:124-136 | a record freed and taken over behaves on every later run like a never-used one, exactly when no zero was left unobserved |
| DeviceRecord.ViewDecidesRun | src/Input/GamepadInputProcessor.cpp:290-317 | everything later runs can show of a record is decided by what its owner sees after syncing |
| DeviceRecord.ReportLeavesRefNear | src/Input/GamepadInputProcessor.cpp:171-174 | after every publish the dead-zoned state has the reference's buttons and is within 1536 per stick axis and 16 per trigger of it |
| DeviceRecord.FarReportsAreCounted | src/Input/GamepadInputProcessor.cpp:352-366 | two reports of one plug that differ in a button, or by more than 3070 on an axis or 30 on a trigger, have a report counted as an actuation between them, touch frames not counting |
| DeviceRecord.RefMovesOnlyWhenCounted | src/Input/GamepadInputProcessor.cpp:171-174 | a run in which no report counts leaves the activity reference where it was, whatever touch, motion and zeros it holds |
| DeviceRecord.MotionFollowsGate | src/Input/GamepadInputProcessor.cpp:189-222 | whatever is published in between, a plug's motion stream is its gate's alone |
| DeviceRecord.DeadzonesRoundTrip | src/Input/GamepadInputProcessor.cpp:20-28 | packing dead zones into one word and unpacking them returns them |
| DeviceRecord.ReportsAreZoned | src/Input/GamepadInputProcessor.cpp:138-187 | from any record: once dead zones are set, until they are set again or the device is re-plugged, every report sent and every one the inspector shows is the reported state with exactly those dead zones cut out, field by field |
| DeviceRecord.ReportsWithoutDeadzones | src/Input/GamepadInputProcessor.cpp:124-136 | a device nobody has set dead zones for since its plug reports what it was given |
| ProcessorTrace.DeadzonesReachReports | src/Input/GamepadInputProcessor.cpp:138-187 | dead zones set on the object by id are cut out of every report then published by index for the record the id has, whatever is called for others |
| DeviceRecord.InspectorShowsLatest | src/Input/GamepadInputProcessor.cpp:290-327 | after every run the inspector shows the plug's last report, last forwarded motion sample and last touch frame, and the counters count the plug's reports and forwarded samples |
| DeviceRecord.ReportCountsIff | src/Input/GamepadInputProcessor.cpp:352-366 | over every run a report counts exactly if it differs from the last one that did in a button, by 1536 or more on an axis or by 16 or more on a trigger |
| DeviceRecord.TouchCountsIff | src/Input/GamepadInputProcessor.cpp:238-253 | a touch frame always goes out and counts exactly if something is down in it or it differs from the plug's frame before |
| DeviceRecord.OwnIsHistory | src/Input/GamepadInputProcessor.cpp:144-253 | over every run the owner keeps the plug's last touch frame and its last report that counted |
| InputProcessor.GamepadInputProcessor.Find | src/Input/GamepadInputProcessor.cpp:70-80 | the lowest Live record with the id |
| InputProcessor.GamepadInputProcessor.Add | src/Input/GamepadInputProcessor.cpp:89-122 | an unhindered add: a known id keeps its record, a new one takes the lowest free, a long one or a full table answers none; ids stay unique |
| InputProcessor.GamepadInputProcessor.Remove | src/Input/GamepadInputProcessor.cpp:124-136 | the record is freed with its visible parts reset and its owner's generation moved |
| InputProcessor.RemovedIsGone | src/Input/GamepadInputProcessor.cpp:124-136 | after a remove no record carries the id and no other record has changed |
| InputProcessor.RemoveThenAddIsReplug | src/Input/GamepadInputProcessor.cpp:86-136 | a record freed and taken by the next add is one re-plug further, and the add takes it exactly if no lower record is free |
| InputProcessor.GamepadInputProcessor.SetDeadzones | src/Input/GamepadInputProcessor.cpp:138-142 | the packed word of that device's record changes and nothing else |
| InputProcessor.GamepadInputProcessor.SyncOwner | src/Input/GamepadInputProcessor.cpp:144-158 | the owner catches up with both generations |
| InputProcessor.GamepadInputProcessor.Publish | src/Input/GamepadInputProcessor.cpp:160-187 | one report: the record, the emission, the counters; an index out of range changes nothing |
| InputProcessor.GamepadInputProcessor.PublishMotionAt | src/Input/GamepadInputProcessor.cpp:189-222 | one motion sample through the gate, and whether it passed |
| InputProcessor.GamepadInputProcessor.PublishTouchpad | src/Input/GamepadInputProcessor.cpp:238-253 | one touch frame: always forwarded, counted when it touches or changes something |
| InputProcessor.GamepadInputProcessor.ZeroAndSendAll | src/Input/GamepadInputProcessor.cpp:278-288 | every Live record's zero generation moves and its device's neutral report goes to the sender, in table order |
| InputProcessor.GamepadInputProcessor.InspectDevice | src/Input/GamepadInputProcessor.cpp:290-317 | what an inspection shows, nothing for an unknown id |
| ProcessorTrace.TraceIsTheRecords | src/Input/GamepadInputProcessor.cpp:160-288 | for any run of calls on the object that neither takes nor frees a record, what has left for its index is exactly what it let out on its own events, in order, and it is where they took it |
| ProcessorTrace.EmissionsNameTheirRecord | src/Input/GamepadInputProcessor.cpp:160-288 | whatever leaves on a call carries the id of the record at its index |
| ProcessorTrace.ReportsLeftAreDeduplicated | src/Input/GamepadInputProcessor.cpp:160-187 | so within one plug and without zeros the reports that have left for a device are its dead-zoned inputs with consecutive repeats removed, however calls for others are interleaved |
| MotionGate.ForwardedIff | src/Input/GamepadInputProcessor.cpp:189-222 | for any clock, one that runs back or wraps included, a sample is forwarded exactly when it is the first, with delta 0, or 4000 us or more after the last forwarded as 64 bits count, with that time, saturated |
| MotionGate.RateIsLimited | src/Input/GamepadInputProcessor.cpp:189-222 | any window of W us holds at most W/4000 + 1 forwards |
| MotionGate.DeltasSumToElapsed | src/Input/GamepadInputProcessor.cpp:189-222 | deltas start at 0 and sum to last minus first exactly when every gap fits 32 bits |
| TouchGate.TouchGate.Decide | src/Input/TouchGate.h:39-43 | the verdict and the new gate of one frame |
| TouchGate.ReceiverFollowsPad | src/Input/TouchGate.h:25-65 | after every report of every run the receiver has the pad's contacts, tracking ids and click, and its positions too once the last send is 8 ms old |
| TouchGate.HealsRepeatFresh | src/Input/TouchGate.h:59-65 | each Fresh frame is followed by at most two heals, which carry its event time and its contents |
| TouchGate.FreshCarriesItsTime | src/Input/TouchGate.h:48-57 | a Fresh frame carries the whole milliseconds of its clock, starting over every 2^32 |
| TouchGate.FreshBeforeZero | src/Input/TouchGate.h:48-57 | before the clock's zero the milliseconds count down, cut off towards it |
| TouchGate.SendsSpaced | src/Input/TouchGate.h:25-65 | over every run, which verdict each report gets: at once if a contact, a tracking id or the click differs from what the receiver has, any other change from 8 ms after the last send on, an unchanged one then as one of two heals |
| TouchGate.SendsAreOwed | src/Input/TouchGate.h:48-65 | from any gate, what an unchanged pad sends and what it still owes add up |
| TouchGate.FallsSilent | src/Input/TouchGate.h:48-65 | under any clock that never runs back, however fast the reports come, an unchanged pad is delivered and silent for ever once the clock has run an interval and one report gap past the last send for each send still owed |
| TouchGate.GateRecordsRun | src/Input/TouchGate.h:67-70 | the gate's four fields are the run's history: the receiver's view, the last send, its event time and the heals left |
| ClientReaper.ClosedInOrder | src/Network/ClientReaper.cpp:26-69 | in every interleaving, retired = closed, then batched, then queued, in order: clients are closed once each, in retirement order, and the counts agree |
| ClientReaper.DrainCovers | src/Network/ClientReaper.cpp:37-46 | for any run around it, a drain that returns leaves every client retired before its call closed and let go of |
| ClientReaper.DrainReturnsIff | src/Network/ClientReaper.cpp:37-46 | a caller inside drain leaves it on its next look exactly if everything retired before its call is counted as closed |
| ClientReaper.AwakeReaperClosesAll | src/Network/ClientReaper.cpp:48-69 | a reaper that is awake and has not made its last take closes and counts every client retired, by its own moves alone |
| ClientReaper.IdleReaperSleeps | src/core/thread/WorkerWake.h:25-29 | with nothing to do it goes to sleep and stays asleep until a permit is posted |
| ClientReaper.NoLostWake | src/core/thread/WorkerWake.h:16-34 | a reaper asleep with work to do has a permit waiting, or a caller about to post one |
| ClientReaper.NotifierPosts | src/core/thread/WorkerWake.h:18-23 | such a caller posts within three moves of its own |
| ClientReaper.EachWakeUsesOnePermit | src/core/thread/WorkerWake.h:18-29 | in every interleaving each sleep that ends uses up one posted permit and nothing else does |
| ClientReaper.NotifyAtWorkIsFree | src/core/thread/WorkerWake.h:18-23 | a caller that notifies a reaper at work is back after one look and posts nothing |
| ClientReaper.RetiredIsClosedIff | src/Network/ClientReaper.cpp:26-69 | in every run that ends with the thread gone, the client of a retire is closed exactly when the reaper had not yet made its last, empty take; that take is made only after the stop |
| ClientReaper.ExitsWithNothingLeftIff | src/Network/ClientReaper.cpp:48-69 | the thread exits only after the stop, and with everything closed and nothing queued exactly when no client was retired after its last take |
| ClientReaper.LateRetireCanBeLost | src/Network/ClientReaper.cpp:17-34 | such a retire can happen: a run whose exit leaves a client queued |
| Seqlock.ReadIsOneWrite | src/core/thread/Seqlock.h:36-46 | in every interleaving a read that answers true answers one whole value: the one committed last, with no write open |
| Seqlock.ReadSucceedsIff | src/core/thread/Seqlock.h:24-46 | a read answers true exactly when no write was open at any moment between its two loads of the generation |
| Seqlock.WriteThenRead | src/core/thread/Seqlock.h:28-45 | in every reachable state with no write open, a value written is committed and an undisturbed read then answers true with it |
| Seqlock.QuietIffSameGeneration | src/core/thread/Seqlock.h:26-34 | the generation stands still exactly while no write is open |
| ControllerShadow.ControllerShadow.Seed | src/Input/ControllerShadow.cpp:39-50 | the shadow of a full read |
| ControllerShadow.ControllerShadow.Apply | src/Input/ControllerShadow.cpp:52-70 | one event's change, and whether it was one the shadow keeps |
| ControllerShadow.ControllerShadow.Snapshot | src/Input/ControllerShadow.cpp:76-88 | the snapshot of the axes and of the buttons whose bits are set |
| ControllerShadow.ReadGamepad | src/Input/ControllerShadow.cpp:90-102 | the snapshot of what the getters answer |
| ControllerShadow.WireButtonsIff | src/Input/ControllerShadow.cpp:17-33 | each report bit is set exactly when its SDL button is down |
| ControllerShadow.ControllerReport | src/Input/JoystickMapping.cpp:169-177 | a controller's report against the getters: sticks with up positive, triggers scaled to 255, each bit by its SDL button's number |
| ControllerShadow.ShadowStandsInForGetters | src/Input/ControllerShadow.cpp:39-102 | after every sequence of events and re-seeds the shadow's snapshot is the one SDL's getters would give |
| DirtySet.DirtySet.Mark | src/core/input/DirtySet.h:21-25 | a slot in range is marked, one out of range refused |
| DirtySet.DirtySet.Drain | src/core/input/DirtySet.h:33-41 | the marked slots in ascending order, and an empty set |
| DirtySet.VisitsEachOnce | src/core/input/DirtySet.h:12-13 | the visits are strictly ascending and exactly the slots marked |
| PadTable.OpenPadsAreCounted | src/Input/SDLGamepadBridge.cpp:169-187 | over every run of cycles, waits and closes, the counter is the number of open pads and stays in 0 to 32 |
| PadTable.OpenPadsAreRegistered | src/Input/SDLGamepadBridge.cpp:183-198 | over every run the pads registered with the processor and not taken out of it are exactly the open ones, and every registration carries the default dead zones |
| PadTable.AddedOpens | src/Input/SDLGamepadBridge.cpp:169-323 | an added pad takes the lowest free slot, is registered and reported at once unless suppressed or without a record; with no slot free it is not opened |
| PadTable.RemovedCloses | src/Input/SDLGamepadBridge.cpp:270-333 | a removal closes and takes out the pad it names if that was opened on the same path, and changes nothing otherwise |
| PadTable.CloseEndsAll | src/Input/SDLGamepadBridge.cpp:436-449 | the end of the loop leaves no pad open, counted or marked, and sends nothing |
| PadTable.SuppressedPadsAreSilent | src/Input/SDLGamepadBridge.cpp:200-213 | over every run each open pad has the flag and the remap of the newest inputs adopted, and every op publishes only from pads outside the suppression set it ran under |
| PadTable.SuppressionLosesNothing | src/Input/SDLGamepadBridge.cpp:555-603 | runs of the same events under any two suppression histories leave every pad in the same state, so the first report once let go reflects every event seen meanwhile |
| PumpCoalescing.CaughtUpIff | src/Input/SDLGamepadBridge.cpp:344-351 | a cycle in which a pad is not suppressed, just let go or not, leaves its receiver with the pad's state exactly if the pad was marked before, or stirred by an event of the cycle (an axis or button SDL numbers, a remap, raw input), or that was its last report already |
| PumpCoalescing.LetGoReportsNothing | src/Input/SDLGamepadBridge.cpp:484-493 | whatever a pad does in a cycle under suppression, a later cycle that lets it go and has no event that stirs it leaves its receiver on the report from before |
| PumpCoalescing.EventsOwe | src/Input/SDLGamepadBridge.cpp:344-351 | events of an open pad report nothing themselves; the pad is marked exactly if it was or one of them stirs it |
| PumpCoalescing.CycleMatchesEventByEvent | src/Input/SDLGamepadBridge.cpp:344-351 | for any events, a cycle that reports at its end leaves the same pads, the same motion and touch, and the same last report of every publishing pad as one that reports after each event |
| PumpCoalescing.CycleLeavesReceiverAlike | src/Input/SDLGamepadBridge.cpp:344-351 | for a pad that stays open in its slot and any record whose latch is what its receiver holds, the slot speaks for that pad alone and the receiver ends the cycle in the state that reporting after every event would leave it in |
| PumpCoalescing.ReceiverHoldsLastReport | src/Input/SDLGamepadBridge.cpp:720-734 | behind the processor's repeat filter a receiver in step with its record ends with the dead-zoned last report, or keeps what it held |
| PumpCoalescing.CycleAppends | src/Input/SDLGamepadBridge.cpp:484-493 | what a cycle sends is appended to what was sent before and does not depend on it |
| PumpCoalescing.OneReportACycle | src/Input/SDLGamepadBridge.cpp:344-351 | a drain reports each marked, publishing pad once and no other |
| PumpCoalescing.DrainReports | src/Input/SDLGamepadBridge.cpp:345-351 | a drain leaves each marked pad's receiver with the pad's state of that moment and touches no other |
| PadTracking.ReportIsWhatGettersSay | src/Input/ControllerShadow.cpp:17-88 | over every run, from the read that opened it, through any cycles and suppression, the report a controller's state amounts to shows field by field what SDL's getters would answer: each axis, each trigger, each button's bit |
| PumpCoalescing.PublishedIsWhatGettersSay | src/Input/SDLGamepadBridge.cpp:484-493 | what a cycle publishes of a controller stirred in it and outside the suppression set in force, just released or not, shows the same |
| PumpCoalescing.JoystickReportsThroughRemap | src/Input/SDLGamepadBridge.cpp:725-734 | what it publishes of a raw joystick is its readings of that cycle through the remap the newest inputs have for its model |
| PumpCoalescing.StirredIsReported | src/Input/SDLGamepadBridge.cpp:340-351 | over every run a pad stirred in a cycle and not suppressed leaves its receiver with the state it has at the cycle's end |
| PadTracking.RunTracks | src/Input/SDLGamepadBridge.cpp:378-396 | whatever cycles, waits and inputs a run is made of, a pad it does not close keeps its slot and its controller state takes exactly the changes addressed to it |
| PadTracking.EventsTrack | src/Input/SDLGamepadBridge.cpp:390-396 | the same for one batch of events |
| PadTracking.ContactsDifferIff | src/Input/SDLGamepadBridge.cpp:579-595 | two contacts of a finger in a row carry different tracking ids, at every moment of each, exactly when the second begins with a Down |
| PadTracking.EventsMoveFingers | src/Input/SDLGamepadBridge.cpp:597-602 | each finger of a pad moves by its own events alone, suppressed or not |
| PadTracking.FingerIsWhereItWent | src/Input/SDLGamepadBridge.cpp:584-595 | a finger is down exactly if its last event was not an Up, and is where its last Down or Motion put it |
| PadTracking.TouchSendsBothFingers | src/Input/SDLGamepadBridge.cpp:597-617 | a touch event sends at once a frame of both fingers as their own events have left them, with the touchpad button as the click |
| PadTracking.GyroGoesWithLastAccel | src/Input/SDLGamepadBridge.cpp:555-577 | a gyro sample goes out at once beside the pad's last accel sample, and not before the first of those |
| SDLGamepadBridge.SDLGamepadBridge.FindSlot | src/Input/SDLGamepadBridge.cpp:157-162 | the lowest open slot with the instance id |
| SDLGamepadBridge.SDLGamepadBridge.ClaimPad | src/Input/SDLGamepadBridge.cpp:169-181 | the lowest free slot taken and counted, or nothing changed on a full table |
| SDLGamepadBridge.SDLGamepadBridge.ReleasePad | src/Input/SDLGamepadBridge.cpp:183-187 | the slot freed and counted, and its device taken out of the processor |
| SDLGamepadBridge.SDLGamepadBridge.AdoptInputs | src/Input/SDLGamepadBridge.cpp:200-213 | the newest inputs applied to every open pad, and nothing when there are none |
| SDLGamepadBridge.SDLGamepadBridge.Rebuild | src/Input/SDLGamepadBridge.cpp:720-734 | one report of a pad that is open, unsuppressed and registered |
| SDLGamepadBridge.SDLGamepadBridge.OnAdded | src/Input/SDLGamepadBridge.cpp:192-323 | a pad opened, registered with the default dead zones, given its inputs and reported at once |
| SDLGamepadBridge.SDLGamepadBridge.OnRemoved | src/Input/SDLGamepadBridge.cpp:270-333 | a pad closed and its device taken out, if it was opened on the same path |
| SDLGamepadBridge.SDLGamepadBridge.OnRemapped | src/Input/SDLGamepadBridge.cpp:378-383 | a controller re-seeded and marked |
| SDLGamepadBridge.SDLGamepadBridge.OnControllerInput | src/Input/SDLGamepadBridge.cpp:390-396 | an axis or button event taken into the shadow, and the pad marked if it was kept |
| SDLGamepadBridge.SDLGamepadBridge.OnRawJoystickInput | src/Input/SDLGamepadBridge.cpp:357-360 | a raw joystick marked, a controller's own joystick events ignored |
| SDLGamepadBridge.SDLGamepadBridge.HandleSensorEvent | src/Input/SDLGamepadBridge.cpp:555-577 | accel cached even while suppressed, gyro sent with it unless suppressed or none is cached |
| SDLGamepadBridge.SDLGamepadBridge.HandleTouchpadEvent | src/Input/SDLGamepadBridge.cpp:597-617 | the contact tracked even while suppressed, the frame sent otherwise |
| SDLGamepadBridge.SDLGamepadBridge.DispatchEvent | src/Input/SDLGamepadBridge.cpp:370-432 | each event kind to its handler |
| SDLGamepadBridge.SDLGamepadBridge.RebuildDirty | src/Input/SDLGamepadBridge.cpp:344-351 | the marked slots reported in ascending order and the marks cleared |
| SDLGamepadBridge.SDLGamepadBridge.PumpOnce | src/Input/SDLGamepadBridge.cpp:484-493 | one cycle: adopt, dispatch every event, report the marked pads |
| SDLGamepadBridge.SDLGamepadBridge.CloseAllDevices | src/Input/SDLGamepadBridge.cpp:436-449 | every pad released, counted, taken out of the processor and unmarked |
| ConnectionHub.ConnectionHub.Bind | src/Network/ConnectionHub.cpp:136-168 | the new table and the sessions' own records after a bind, for any hash order |
| ConnectionHub.ConnectionHub.Unbind | src/Network/ConnectionHub.cpp:170-177 | the slot's binding gone and its session detached; an unbound slot changes nothing |
| ConnectionHub.ConnectionHub.BoundSlotFor | src/Network/ConnectionHub.cpp:72-77 | the first slot found on a connection in the hash's order |
| ConnectionHub.ConnectionHub.Rebuild | src/Network/ConnectionHub.cpp:100-112 | a row for each id whose server record is usable, with its bound slot |
| ConnectionHub.BindMoves | src/Network/ConnectionHub.cpp:136-150 | from an injective table a bind takes the connection off every slot and puts it on this one, whatever the hash order, unless it overlooks the empty slot id |
| ConnectionHub.BindInjectiveIff | src/Network/ConnectionHub.cpp:138-150 | a bind keeps the table injective exactly when the connection is not on the empty slot id with another slot taking it |
| ConnectionHub.EmptySlotKeepsItsBinding | src/Network/ConnectionHub.cpp:145-149 | two binds that leave one connection on two slots |
| ConnectionHub.RunsStayInjective | src/Network/ConnectionHub.cpp:136-177 | a run of binds and unbinds keeps the table injective after every step exactly when no bind overlooks a slot, and then no hash order matters |
| ConnectionHub.NamedSlotsAreSafe | src/Network/ConnectionHub.cpp:136-177 | a run that binds only slots with names overlooks none |
| ConnectionHub.BoundByLastBind | src/Network/ConnectionHub.cpp:136-177 | after every such run a slot is bound to a connection exactly when the connection's own history of binds says so |
| ConnectionHub.BoundSlotIsUnique | src/Network/ConnectionHub.cpp:72-77 | the slot a lookup finds is the only one bound to the connection, for every hash order |
| ConnectionHub.BoundConnectionRoundTrip | src/Network/ConnectionHub.cpp:129-184 | from a slot to its connection's row and back to the slot, and none exactly when the row is not shown |
| ConnectionHub.BindAgreesIff | src/Network/ConnectionHub.cpp:136-168 | a bind keeps the sessions' own slots in agreement with the table exactly when the slot was not bound to another pooled session, the overlooked empty id included |
| ConnectionHub.UnbindAgrees | src/Network/ConnectionHub.cpp:170-177 | an unbind always keeps them in agreement |
| ConnectionHub.RunsAgreeIff | src/Network/ConnectionHub.cpp:136-177 | throughout a run every session holds exactly the slots the table gives it if and only if no bind takes a slot from another pooled session |
| ConnectionHub.SessionIsItsHistory | src/Network/WifiConnection.cpp:248-305 | a session's own record after a run is given by its history of binds: its last slot and those left behind after another session took them over |
| ConnectionHub.SessionFollowsIff | src/Network/WifiConnection.cpp:395-397 | throughout a run a session's own bound slot is the table's if and only if it is never bound again to a slot that it left behind so |
| ConnectionHub.ReturningLosesInput | src/Network/ConnectionHub.cpp:136-168 | four binds after which the table gives a slot to a session that has no bound slot |
| JoystickMapping.AdaptiveIsExplicit | src/Input/JoystickMapping.cpp:179-246 | for every snapshot and remap, the adaptive guess maps as the explicit remap it resolves to: right stick 2/3 and trigger buttons 8/9 below six axes |
| JoystickMapping.ButtonsMeanTheirSources | src/Input/JoystickMapping.cpp:204-244 | every report button is set exactly when its raw button is pressed or the hat points its way; no other bit is ever set |
| JoystickMapping.ExplicitOutputs | src/Input/JoystickMapping.cpp:179-246 | every output of a remap without guesses, by what the snapshot holds at the remap's indices, unassigned and past the end reading neutral |
| JoystickMapping.HatAssignmentMovesDpad | src/Input/JoystickMapping.cpp:80-85 | assigning a direction from a hat moves the whole d-pad to it and takes that direction's own button away, and nothing else |
| JoystickMapping.AssignmentChangesOnlyItsBit | src/Input/JoystickMapping.cpp:73-138 | assigning a button changes no part of any report but its own bit, which follows the new source |
| JoystickMapping.AnalogAssignmentsFollowTheirSource | src/Input/JoystickMapping.cpp:86-152 | what each stick and trigger assignment changes and what it leaves alone |
| JoystickMapping.AssigningRightAxisKeepsOtherIff | src/Input/JoystickMapping.cpp:98-103 | assigning one right-stick axis leaves the other alone on every pad exactly when the stick was not adaptive or the other is stored where the guess has it |
| JoystickMapping.AssigningTriggerKeepsOtherIff | src/Input/JoystickMapping.cpp:87-96 | the same for the triggers |
| JoystickMapping.LastAssignmentWinsIff | src/Input/JoystickMapping.cpp:109-155 | a second assignment of a target undoes the first, exactly unless a hat capture moved the hat and the second leaves it there |
| JoystickMapping.AssignmentsCommuteIff | src/Input/JoystickMapping.cpp:109-155 | assignments of different targets commute, exactly unless both move the hat to different places |
| JoystickMapping.DefaultLayout | src/Input/JoystickMapping.h:100-138 | the documented default layout, every axis, trigger and button, on pads with six axes or more and on those with fewer |
| JoystickMapping.TriggerCoversItsRange | src/Input/JoystickMapping.cpp:30-33 | the trigger scale is monotone and reaches 0 and 255 exactly where it should |
| JoystickMapping.InvertTwice | src/core/input/Deadzones.h:39-44 | axis inversion reverses order and undoes itself, but for the one value that saturates |

## Left out

- Weak memory: every atomic access is one sequentially consistent step; the orderings the source picks are not modelled.
- Widths: generations, epochs and counters are unbounded, so a counter that wraps between two loads is not modelled.
- Lifetime of the shared epoch object after the router is gone; only tables are tracked.
- Update in place under concurrency: the registry, the publisher, the reaper, the leases and the sequence lock are step machines on values, because their threads interleave inside a call.
- DeviceRegistry.AddsAgree: a concurrent `remove` is not modelled. A thread stands for one call, which may be repeated; a thread that adds several ids in turn is one such thread for each.
- RouteTable.TableRefinesLookup: a device removed and replaced after the build is read through the old index until the next publish; the table is matched only against registries that grew.
- InputProcessor.GamepadInputProcessor.Add: one whole step; racing adds are the registry's model, and `RegistryAlone.AloneIsWholeStep` ties the two.
- PadTracking.ContactsDifferIff: consecutive ids differ, but the 8-bit id repeats after 256 contacts, as in the source.
- SDLGamepadBridge.SDLGamepadBridge.OnAdded: the index the processor answers is a parameter, as its table is the registry's model, and the clearing of the new pad's output mailbox is not modelled.
- ControllerShadow.ControllerShadow.Snapshot: the button word is 64 bits wide here and 32 in the source; no button reaches past bit 20 in either.
- Battery samples, which are published for suppressed pads too, output mailboxes, capture of raw input for the remap page, and device lists.
- SDL's opening, closing and filtering of devices: the events that reach the model are those of devices it would open.
- Floating-point scaling of sticks, triggers, sensors and touch coordinates: events carry the converted values.
- The feedback reducers and the USB-direct target: a feedback route keeps its connection, slot, pad index and rumble switch.
- Sorting and labels of the connection rows, link states, discovery, pairing, storage and everything behind a session's send target.
- Moonlight sessions and their feedback list; telemetry counters' reset; the UI, settings, pacing of the pump, and start-up.
- Bytes of a sequence-locked value: a value is its sequence of words.
