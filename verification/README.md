# Virtual media: slots, their driver and their codecs

The virtual-media service lends disk images to a host. Each configured mount point is a *slot*: a state
machine (Initial, Ready, Activating, Active, Deactivating) that owns a child process serving the image, a USB
gadget showing it to the host, at times a mounted share with its directory, the requested target, and a
Completion signal it still owes to a client. Slots are driven by D-Bus calls, by insertions and removals that a
device monitor derives from kernel events, and by child exits that may come late or twice.

The project has three layers.

* **Specification.** `SlotModel` says what one event does to one slot, `Monitor` what one kernel event does to
  what is recorded, `Systems` what one action does to all slots. Acquisitions, releases, signals and state changes
  go into a log; `Trace` is a rule book for such logs, with what follows from it for every log that obeys it.
* **Program.** `Slots`, `Monitor.DeviceMonitor`, `Application`, `Sessions.DbusMonitor`, `CifsOptions.Credentials`,
  `Inactivity.ActiveState` and `Retry.Reconnector` are objects updated in place, as in the original. Each method
  is proved to do exactly what the specification says.
* **Theorems.** `SlotTable` says of every event in every state who is refused, where the slot goes and with which
  error. `SlotSafety`, `SlotRuns`, `SlotSignals`, `Rendezvous`, `LocalMedia`, `SystemRuns` and `Projections` prove what
  holds in every run; `Sessions`, `CredentialPipe`, `CifsOptions`, `Inactivity` and `Retry` prove the laws of the rest.

The headline results are these.

1. `SystemRuns.CouplingInEveryRun`: for any configuration and any interleaving of kernel events, calls, child
   exits and timer completions, the monitor and every slot agree about the slot's device.
2. `SystemRuns.HistoryInEveryRun` and `TeardownInEveryRun`: what was acquired and not released is exactly what
   the slot's fields hold, and everything is released gadget first, then child, share and directory, before the
   next mount is accepted.
3. `SystemRuns.NextKeepsExclusionIff`: for every action there is, at most one slot goes on holding a local file if
   and only if the action is neither of two kinds that can be told beforehand; `ExclusionInEveryRun` lifts it to runs.
4. `Sessions.ReconcilesIff`: a session update does its work if and only if no slot called `INVALID` stands in the way.
5. `SlotSignals.SettlingIsTold` and `SignalLostIff`: who is told what, and exactly when a pending request is never
   answered. `SystemRuns.SuccessInEveryRun`: in any run a mount answered with success is mounted if and only if the
   slot was not deactivated on the way.
6. `SlotTable.MountOutcome`: an accepted mount of any scheme gets going if and only if every guard it depends on holds,
   and otherwise fails with the error of the first that does not; `RefusedIff` says exactly who is turned down, and why.
7. `Application.App.ActAll`: the objects, updated in place, go through exactly the runs all this is about.

`Projections.RunProjects` makes every slot of the system a run of its own, so that what holds for one slot holds for
all of them in company. `Rendezvous.Leaves`, the two codec round trips, the inactivity deadline and the retry bound complete it.

## What the code does that its intent does not suggest

* The completion handler of the notification timer clears `started` before it goes on to notify, so a request that
  times out is never answered (`Slots.NotificationWrapper.RunExpired`). Because a cancelled wait runs its handler
  later, a mount that failed at once can silence the mount after it (`SlotSignals.StaleAbortLosesSignal`).
* A slot called `INVALID` cannot be told from a failed look-up: `Sessions.Obstructed` says exactly when that matters,
  and `Sessions.InvalidSlotIsKept` is an update that fails for it.
* Local.Mount refuses only while the file being served can still be found, and a legacy slot's own Mount takes a
  local path without asking. `SystemRuns.Breaks` says exactly when either costs exclusion,
  `DeletedFileLosesExclusion` is a run of the first kind, `LegacyMountIgnoresExclusion` describes the second.
* A signal with code 0 does not mean mounted. It does if and only if the slot was being activated when it was sent
  (`SlotSignals.SuccessMeansMountedNow`), that is if it was not deactivated on the way (`SystemRuns.SuccessInEveryRun`);
  `SlotSignals.RemovedThenExitIsSuccess` is how a removed device ends in an answer of success.
* An answer goes out while things are still outstanding. `SlotSignals.AnswerBeforeTeardown` says exactly what, for
  every answer: the child if and only if the slot was being activated, the gadget if and only if it has just been
  configured, a share with its directory if and only if there was one. A mount that fails at once is answered when
  activation has given up: a share that could not be mounted has lost its directory by then, one that could be mounted
  but not served still stands (`FailedMountAnswer`).
* A mount that finds its device recorded as inserted already comes to nothing, as no insertion can follow before a
  removal: `SystemRuns.InsertedBeforeMountComesToNothing`; `Projections.MountAfterInsertion` is a run that gets there.
* The reader of the credential pipe accepts only pairs that go round unchanged (`CredentialPipe.AcceptedGoesRound`),
  so in every run whatever login a slot holds does (`Projections.LoginsGoRoundInEveryRun`);
  `CredentialPipe.EveryAcceptedReadIsRightIff` says what the format is worth for other pairs.
* The inactivity clock starts at the epoch of the steady clock, so a slot whose statistics cannot be read expires at
  its first tick on a machine up for longer than the timeout: `Inactivity.FirstTickExpiresIff`.

## Model

| member | source | states |
|---|---|---|
| Trace.Conservation | src/resources.hpp:33-155 | In any lawful history the acquisitions of a kind exceed its releases by one or by none, as the ledger says: never two held, never a release of something not held |
| Trace.TeardownOrder | src/state/deactivating_state.hpp:30-36 | In any lawful history a child is stopped only with every gadget gone, a share unmounted only with every child stopped, its directory removed after it, and a mount accepted only with nothing left over |
| Trace.NotificationConservation | src/utils.hpp:327-353 | Starts equal signals sent, plus starts cleared by a timer completion, plus the one that may be pending |
| Trace.OneOutcomePerStart | src/utils.hpp:327-353 | Between a start and the next entry to Ready or Active there is exactly one signal or clearing |
| Trace.RunShape | src/state_machine.hpp:60-87 | Entries to Ready follow from registration and accepted mounts exactly; entries to Active never exceed accepted mounts |
| Trace.SuccessMeansMountedIff | src/state/activating_state.cpp:70-76 | In any lawful history a mount answered with success settles in Active if and only if the slot was not deactivated between its start and its settling |
| Trace.SuccessSettles | src/state/active_state.hpp:13-20 | A success that is signalled settles the slot with the very next entry: in Active if it was being activated, in Ready otherwise |
| SlotSafety.ActivateIsFaithful | src/state/activating_state.cpp:31-331 | Every path of activation, in either mode and whatever fails on the way, leaves a history that is lawful and agrees with the fields; success owns exactly one running child, failure none |
| SlotSafety.MountShareIsFaithful | src/resources.hpp:33-155 | A share that fails to mount gives its directory back and is never unmounted; one that mounts stays held with its directory even if no child can serve it |
| SlotSafety.ReadyIsGood | src/state/ready_state.hpp:26-49 | Coming to Ready from any state gives back everything owned, in order, and leaves no target, no pending notification and a lawful history |
| SlotSafety.DeactivateIsGood | src/state/deactivating_state.hpp:13-36 | Coming to Deactivating gives back gadget and child, in that order, keeps the share, and never leaves both awaited events already stored |
| SlotSafety.InsertionIsGood | src/state/activating_state.cpp:43-76 | An insertion ends in Active with a working gadget and the child moved on, or in Ready with both given back |
| SlotSafety.StepIsGood | src/state_machine.hpp:77-122 | The slot invariant (lawful history, fields in agreement with it, nothing held in Initial or Ready, pending only in Activating or Deactivating, legacy slots with a target) survives any event, call, exit or timer completion |
| SlotRuns.ChangeStateFrame | src/state_machine.hpp:60-68 | A state change comes to rest in the state asked for, or in Ready if activation fails at once, and never touches name, configuration, client info or the request |
| SlotRuns.StepFrame | src/state/initial_state.hpp:271-288 | Client info changes only by a Mount call in Ready; a target, once held, keeps image, access and login, and can only be acquired by a mount accepted in Ready |
| SlotRuns.WellFormedIsLegal | src/state/activating_state.cpp:133-137 | Nothing the D-Bus methods of a slot can send makes legacy activation read a target that is absent |
| SlotRuns.Run | src/state_machine.hpp:77-122 | Any sequence of well-formed inputs keeps the slot invariant, the name and the configuration |
| SlotRuns.RunConserves | src/resources.hpp:157-192 | Over any run of one slot what is outstanding of each resource is exactly what the fields hold, and nothing in Initial or Ready |
| SlotRuns.RunNotifies | src/state_machine.hpp:137-164 | Over any run every start is answered once, cleared once or pending, the last only in Activating or Deactivating |
| SlotRuns.RunEndsEachStartOnce | src/state_machine.hpp:137-164 | Over any run each start meets exactly one outcome before the slot next settles |
| SlotRuns.RunSuccessMeansMountedIff | src/state/deactivating_state.hpp:62-67 | Over any run of one slot success means mounted if and only if there was no deactivation on the way |
| SlotRuns.RunTearsDownInOrder | src/state/activating_state.hpp:63-64 | Over any run the order of teardown holds at every point of the history |
| SlotRuns.RunSettles | src/state/ready_state.hpp:51-59 | Over any run entries to Ready are one plus accepted mounts, less one unless the slot is in Ready; entries to Active are at most the accepted mounts |
| SlotRuns.RunKeepsTarget | src/state/ready_state.hpp:41-59 | Over any run the target held is the one of the last accepted mount until Ready clears it, and a legacy slot outside Initial and Ready has one |
| SlotTable.MountOutcome | src/state/activating_state.cpp:97-331 | An accepted mount leaves the slot Activating with its child running if and only if all its guards hold (socket directory, slot number, and per scheme file, login, directory, user name, mount, old socket, child), and otherwise in Ready with the error of the first that does not |
| SlotTable.RefusedIff | src/state/active_state.hpp:88-101 | A mount is refused if and only if the slot is Activating, Active or Deactivating, an unmount if and only if it is neither Initial nor Active, with the error of the state; changes and exits never are; who is refused changes nothing |
| SlotTable.IdleIgnores | src/state/ready_state.hpp:61-73 | Whatever else reaches a slot in Initial or Ready leaves it as it is |
| SlotTable.RegistrationIsReady | src/state/initial_state.hpp:24-53 | Registration leads to Ready without an error |
| SlotTable.ActivatingGoes | src/state/activating_state.cpp:43-95 | Where each change and exit takes an activating slot, with ERANGE for a gadget that is too small, EINVAL for any other failure of it, EPROTO for an early exit on an https image and ENOENT on any other |
| SlotTable.ActiveGoes | src/state/active_state.hpp:69-86 | Change, exit and unmount each deactivate an active slot and are remembered as such; only an unmount starts a notification |
| SlotTable.DeactivatingGoes | src/state/deactivating_state.hpp:38-79 | Which of the two awaited kinds ends a deactivation, and with which error |
| SlotTable.ExitCodeAfter | src/state/activating_state.cpp:31-34 | The exit code is that of the last exit until an accepted mount resets it to -1 |
| SlotTable.MountCallRecords | src/state/initial_state.hpp:274-288 | A Mount call records its client in Ready and nowhere else |
| SlotTable.WaitsAreCompletedOnce | src/utils.hpp:327-353 | Every start of a notification opens one wait of the timer and every wait is completed once |
| SlotSignals.SettlingIsTold | src/state/active_state.hpp:13-20 | A pending request is answered by exactly one signal when the slot settles, with the error Ready records or 0; so is a mount that fails on the spot; no other step signals |
| SlotSignals.SuccessMeansMountedNow | src/state/active_state.hpp:13-20 | A step that answers with success leaves the slot Active if and only if it was Activating before, and in Ready without an error if and only if it was Deactivating |
| SlotSignals.RemovedThenExitIsSuccess | src/state/deactivating_state.hpp:58-67 | A pending slot being activated whose device is removed and whose child then exits is answered with 0 and ends in Ready |
| SlotSignals.AnswerBeforeTeardown | src/state/ready_state.hpp:26-39 | For every step that sends an answer: when it goes out the child is outstanding if and only if the slot was Activating before the step, the gadget if and only if an insertion has just configured it, a share with its directory if and only if there was one or the failing mount got as far as mounting one |
| SlotSignals.FailedMountAnswer | src/state/activating_state.cpp:248-331 | A mount that fails at once is answered with no child and no gadget outstanding, and with a share and its directory if and only if every guard up to a mounted share passed |
| SlotSignals.SignalLostIff | src/utils.hpp:333-337 | A pending request ceases to be pending unanswered if and only if a finished wait of the timer is run |
| SlotSignals.StepStaysAwaited | src/utils.hpp:327-353 | While a request is pending its wait is in flight, or its timeout is about to be run; no step of any kind breaks this |
| SlotSignals.TimeoutEndsPending | src/state_machine.hpp:139-158 | After any run of one slot, letting the timer expire and running its handler ends whatever is pending |
| SlotSignals.StaleAbortLosesSignal | src/utils.hpp:327-353 | For every good slot: after a mount that failed at once, running its aborted wait during the next mount lets that one become Active without any signal |
| SlotSignals.StaleAbortIsPossible | src/state/initial_state.hpp:269-357 | A mount that fails at once followed by one that starts exists for a slot in Ready if and only if the slot can be mounted at all; whether the aborted wait is still queued by then is up to the scheduler, as with two legacy mounts that wait on their pipes, whereas a proxy mount's wait is queued before the next call is read |
| Rendezvous.Waits | src/state/deactivating_state.hpp:38-79 | Until a device change and a child exit have both been seen, in any number and order, Deactivating only remembers them |
| Rendezvous.Leaves | src/state/deactivating_state.hpp:38-79 | Deactivating is left at exactly the arrival that completes the pair, without an error if and only if the last change by then is a removal; later arrivals change nothing |
| Rendezvous.OrderIsIrrelevant | src/state/deactivating_state.hpp:38-79 | Two arrival sequences with the same last change at their completing arrivals leave the slot in the same condition |
| Slots.NotificationWrapper.Start | src/utils.hpp:327-338 | A new start aborts the wait in flight, which stays queued, and arms a new one |
| Slots.NotificationWrapper.Notify | src/utils.hpp:340-353 | A signal goes out if and only if something was started, and then nothing is pending |
| Slots.NotificationWrapper.RunExpired | src/state_machine.hpp:139-150 | The handler of an expired wait sends nothing: it has cleared `started` itself |
| Slots.MountPointStateMachine.constructor | src/state_machine.hpp:15-22 | A new slot is blank and has its device watched as removed unless it already was |
| Slots.MountPointStateMachine.DestroyProcess | src/resources.cpp:8-18 | A process that never started is not asked to stop |
| Slots.MountPointStateMachine.DestroyShare | src/resources.hpp:98-115 | A share is unmounted before its directory is removed |
| Slots.MountPointStateMachine.AcquireShare | src/resources.hpp:84-96 | A failed mount leaves only a directory, which goes at once; an existing directory is an error of its own |
| Slots.MountPointStateMachine.MountLocalFile | src/state/activating_state.cpp:534-592 | Serves a local file or hands over to Ready with the first error met, as specified |
| Slots.MountPointStateMachine.ActivateProxyMode | src/state/activating_state.cpp:97-131 | Proxy activation as specified, including the process object kept when it does not start |
| Slots.MountPointStateMachine.ActivateLegacyMode | src/state/activating_state.cpp:133-246 | Legacy activation as specified, which `SlotTable.MountOutcome` ties to the guards of every scheme |
| Slots.MountPointStateMachine.ChangeState | src/state_machine.hpp:60-68 | Installs the new state, destroys the old one, enters the new one and follows what that returns; terminates by rank |
| Slots.MountPointStateMachine.HandleInActivating | src/state/activating_state.cpp:43-95 | Answers each event in Activating as specified, with the gadget and child moved on |
| Slots.MountPointStateMachine.HandleInActive | src/state/active_state.hpp:69-101 | Answers each event in Active as specified, which `SlotTable.ActiveGoes` and `RefusedIff` spell out |
| Slots.MountPointStateMachine.HandleInDeactivating | src/state/deactivating_state.hpp:38-79 | Stores what arrives and leaves once both kinds are there; refuses anything else |
| Slots.MountPointStateMachine.HandleInReady | src/state/ready_state.hpp:51-73 | Accepts mounts only, starting the notification before the target is taken |
| Slots.MountPointStateMachine.EmitEvent | src/state_machine.hpp:77-87 | One event has exactly the specified effect on the slot and its log, and the specified refusal; both are spelled out per state in `SlotTable` |
| Slots.MountPointStateMachine.EmitUdevStateChangeEvent | src/state_machine.hpp:111-122 | Only the slot serving the device reacts |
| Slots.MountPointStateMachine.OnExit | src/state/activating_state.cpp:118-124 | An exit, however stale, records its code first and then is an event like any other |
| Slots.MountPointStateMachine.RunCompletion | src/utils.hpp:333-337 | A finished wait clears whatever is pending at the time it is run |
| Slots.MountPointStateMachine.Take | src/state_machine.hpp:77-122 | Any input of a registered slot has exactly the specified effect |
| Monitor.RecordedIsLastAccepted | src/system.hpp:327-378 | For any stream of kernel events, what is recorded for a device is whether its last accepted size was positive, removed if there was none |
| Monitor.EdgesAlternate | src/system.hpp:361-378 | For any stream the callbacks of a device strictly alternate, beginning with inserted, and their parity is what is recorded |
| Monitor.DeviceNamedIff | src/system.hpp:133-145 | The i-th known name is device i and no other, and every other name is unknown |
| Monitor.EventTouchesOne | src/system.hpp:303-379 | A kernel event changes the record of the device it names, to what its size says, and no other; it is called back for that device alone, if that is news |
| Monitor.LastPositiveIff | src/system.hpp:303-379 | What is recorded is told by the last event of a stream that is a size of that device, by its place in the stream |
| Monitor.DeviceMonitor.AddDevice | src/system.hpp:385-390 | Watching a device twice does not reset it |
| Monitor.DeviceMonitor.GetState | src/system.hpp:392-400 | What is recorded, or not monitored |
| Monitor.DeviceMonitor.Process | src/system.hpp:303-379 | One kernel event updates the record and yields a callback exactly when the record changes, for the device it names (`Monitor.EventTouchesOne`) |
| Monitor.DeviceMonitor.Run | src/system.hpp:286-383 | The receiving loop over any stream leaves the specified record and makes exactly the specified callbacks |
| LocalMedia.AvailableIsReady | src/state/initial_state.hpp:579-601 | With slots in order, the available ones are exactly the registered ones in Ready, in slot order |
| LocalMedia.GrantedIff | src/state/initial_state.hpp:397-511 | Local.Mount succeeds if and only if nothing is served, the file may be served, and some slot is free; it takes the first |
| LocalMedia.CurrentIsFirst | src/state/initial_state.hpp:551-577 | What is currently served is what the first serving slot of the order serves |
| LocalMedia.BadRequests | src/state/initial_state.hpp:436-475 | With nothing served: EINVAL if and only if the path is not local or no regular file, ENOENT if and only if it does not exist, EPERM if and only if it is a CD image to be written |
| LocalMedia.ScansAgree | src/state/initial_state.hpp:397-601 | A mount is refused as busy if and only if something is served or nothing is Ready for a good request, and a grant goes to the head of the available list; the scans for a served file are one and the same here, so what agrees is that one with the two for a free slot |
| Systems.UdevKeepsCoupling | src/state_machine.hpp:111-122 | A change of the record, delivered to a slot in agreement with the old record, leaves it in agreement with the new one |
| Systems.OtherStepsKeepCoupling | src/state/active_state.hpp:69-86 | Nothing else that happens to a slot disturbs the agreement |
| Systems.NextKeepsCoupling | src/main.cpp:77-82 | Every action of the system keeps monitor and all slots in agreement |
| SystemRuns.RunSystem | src/main.cpp:77-82 | Any sequence of actions from a system in agreement leads to one in agreement, with the same slots in the same configurations; this is the induction behind the statements about every run |
| SystemRuns.BootIsCoupled | src/main.cpp:70-75 | From any loaded configuration the system starts in agreement and with no local target |
| SystemRuns.ActiveSeesOnlyRemovals | src/state/active_state.hpp:69-73 | The only callback an active slot can get is a removal |
| SystemRuns.UnexpectedStateExactly | src/state/deactivating_state.hpp:62-76 | A deactivation ends in error if and only if the device is recorded as inserted by then |
| SystemRuns.KernelMountsIff | src/system.hpp:303-379 | A kernel event makes an Activating slot Active if and only if its action is change, its name that of the slot's device, its size a positive number, the record removed and the gadget fine; an event for another name leaves the slot as it is |
| SystemRuns.InsertedBeforeMountComesToNothing | src/state/activating_state.cpp:43-76 | From Activating with the device recorded as inserted, or from Deactivating, any run leads to Ready before it leads to Active |
| SystemRuns.TakesHoldIff | src/state/activating_state.cpp:133-190 | A slot in Ready asked to mount a local file comes to hold it if and only if every guard of activation passes |
| SystemRuns.LocalMountKeepsExclusionIff | src/state/initial_state.hpp:405-434 | Local.Mount keeps exclusion if and only if it is refused, or some guard of activation fails, or no slot held a local target |
| SystemRuns.NextKeepsExclusionIff | src/state/initial_state.hpp:405-507 | Every action keeps at most one local target, where the service looks, if and only if it is not a granted local mount that takes hold beside another, nor a slot's own mount of a local path that takes hold beside another or outside the slot order |
| SystemRuns.DeletedFileLosesExclusion | src/state/initial_state.hpp:415-434 | Two proxy slots, a local mount, its file deleted, a second local mount: two local targets |
| SystemRuns.NextKeepsExclusion | src/state/initial_state.hpp:405-507 | Every action that plays by the rules keeps at most one local target |
| SystemRuns.CouplingInEveryRun | src/main.cpp:70-82 | After any run from start-up: Active implies inserted; Deactivating without a change implies inserted; Deactivating with one implies the record equals it |
| SystemRuns.ExclusionInEveryRun | src/state/initial_state.hpp:405-507 | After any run in which local targets enter through Local.Mount and served files stay present, at most one slot holds one, for any number of slots |
| SystemRuns.ScansAgreeInEveryRun | src/state/initial_state.hpp:397-601 | After any run the scans of the local-media service see the same slots |
| SystemRuns.HistoryInEveryRun | src/resources.hpp:33-192 | After any run of the system each slot's resources, notifications and entries to Ready balance |
| SystemRuns.TeardownInEveryRun | src/state/ready_state.hpp:41-49 | In any run of the system teardown is in order at every point of every slot's history |
| SystemRuns.SuccessInEveryRun | src/state/deactivating_state.hpp:58-79 | In any run of the system, for every slot, a mount answered with success is mounted if and only if the slot was not deactivated on the way |
| SystemRuns.LegacyMountIgnoresExclusion | src/state/activating_state.cpp:185-190 | A legacy slot's own mount of a local path keeps exclusion if and only if it does not take hold, or nothing else is held and the service looks at the slot |
| Projections.RecordFollowsKernel | src/system.hpp:303-379 | In any run the record of the monitor is what the kernel's events, in order, make of it, and nothing else changes it |
| Projections.SizeInEveryRun | src/state_machine.hpp:111-122 | In any run the last accepted size of an active slot's device is positive, as is that of a deactivating slot that has seen no change; one that has seen a change agrees with it |
| Projections.RunProjects | src/main.cpp:70-98 | Any run of the system is, for every slot, a run of well-formed inputs of its own |
| Projections.TargetInEveryRun | src/state/ready_state.hpp:41-59 | In any run of the system every slot holds the target it last accepted until Ready clears it, and a legacy slot outside Ready has one |
| Projections.LoginsGoRoundInEveryRun | src/state/activating_state.cpp:206-218 | In any run of the system the login a slot holds, written to the pipe again, decodes to itself |
| Projections.AwaitedInEveryRun | src/state_machine.hpp:137-159 | In any run of the system a pending request has its wait in flight or its timeout about to be run |
| Projections.MountAfterInsertion | src/state/ready_state.hpp:51-73 | From start-up, a size for the device and then a mount: the slot is Activating with its device recorded as inserted |
| Application.App.constructor | src/main.cpp:70-83 | The constructed system is the start-up system: slots registered, separate and Ready, devices watched as removed |
| Application.App.OnKernelEvent | src/main.cpp:77-82 | The monitor and the fan-out to all slots together make exactly the system's step, on separate objects |
| Application.App.Broadcast | src/main.cpp:77-82 | Walking the map tells every slot exactly once |
| Application.App.GetCurrentMount | src/state/initial_state.hpp:551-577 | Names the first slot serving a local file with its path, or nothing if none does |
| Application.App.ListAvailableSlots | src/state/initial_state.hpp:580-601 | Lists the free slots in slot order |
| Application.App.MountLocal | src/state/initial_state.hpp:397-511 | Gives the specified answer, and changes only the slot granted |
| Application.App.UnmountLocal | src/state/initial_state.hpp:514-548 | Acts on the slot that GetCurrentMount names, and on no other, and is refused as busy if and only if that slot is not Active |
| Application.App.Act | src/main.cpp:70-82 | Whatever happens (kernel event, call, exit, timer completion, local media) takes the objects through exactly the system's step |
| Application.App.ActAll | src/main.cpp:85-98 | Any sequence of actions takes the objects through exactly the run of the system, in agreement throughout |
| Configuration.SetupVariables | src/configuration.hpp:124-260 | A mount point is loaded if and only if some item of its name is acceptable, with the mode, device and number that item gives; none is in local mode; the system built from the result starts in agreement |
| Configuration.LastItemIsLast | src/configuration.hpp:256 | The item that counts is the acceptable one of that name that comes last |
| Configuration.SkippedIff | src/configuration.hpp:131-255 | An item is skipped if and only if a member has the wrong type, the device is unknown, or the mode is neither 0 nor 1 |
| Sessions.SetDifference | src/system.hpp:719-725 | The multiset difference of two sorted sequences (section set.difference of ISO/IEC 14882) |
| Sessions.UnmountedAreErased | src/system.hpp:748-768 | Unmounts are issued for exactly the slots erased, once each |
| Sessions.EraseLaw | src/system.hpp:748-768 | Every id to be removed loses its bindings; where a slot called INVALID blocks one id, that id keeps too many and all others are still right |
| Sessions.ReconcilesIff | src/system.hpp:728-770 | After an update every id is bound to min(before, listed) slots if and only if no slot called INVALID stands in the way |
| Sessions.InvalidSlotIsKept | src/system.hpp:702-754 | One slot called INVALID whose session is gone: it stays bound and is never unmounted |
| Sessions.SecondUpdateChangesNothing | src/system.hpp:728-770 | A second update with the same list erases and unmounts nothing |
| Sessions.DbusMonitor.FindKeyForValue | src/system.hpp:692-704 | The first slot bound to an id, or INVALID |
| Sessions.DbusMonitor.FindRemovedSessionIDs | src/system.hpp:706-726 | Each id, as many times as it is bound more often than listed |
| Sessions.DbusMonitor.HandleSessions | src/system.hpp:728-770 | An update erases and unmounts as specified, and reconciles if and only if it is not obstructed |
| CredentialPipe.RoundTripIff | src/credentials.hpp:49-61 | A whole message decodes to the pair written if and only if neither part contains a NUL |
| CredentialPipe.PartialReadRefused | src/state/initial_state.hpp:302-314 | Every proper prefix of a NUL-free message is refused |
| CredentialPipe.AcceptedStaysInside | src/state/initial_state.hpp:306-319 | Whatever is accepted, both strings and their NULs lie inside the bytes received |
| CredentialPipe.DecodesIff | src/state/initial_state.hpp:306-319 | The bytes are accepted as a login if and only if they are its two NUL-free strings, each ended by a NUL, and nothing with a NUL after them |
| CredentialPipe.Credentials.AsyncWrite | src/credentials.hpp:49-61 | The strings are moved in and written one after the other, each with its NUL |
| CredentialPipe.AcceptedGoesRound | src/state/activating_state.cpp:206-218 | A login the reader has accepted and the writer writes on is accepted again as the same login |
| CredentialPipe.EveryAcceptedReadIsRightIff | src/state/initial_state.hpp:300-324 | All reads that can be accepted give the pair written if and only if it is NUL-free or the buffer ends before a second NUL |
| CredentialPipe.ReadCredentials | src/state/initial_state.hpp:300-324 | The reader on its buffer is the decoder of the bytes received, whatever lies beyond them |
| CifsOptions.JoinRoundTrip | src/utils.hpp:72-85 | Options written with doubled commas read back as written, provided no later one is empty or begins with a comma |
| CifsOptions.TextIsJoin | src/smb.hpp:23-53 | For a comma-free user name the option text is the intended options written that way, though only the password is doubled |
| CifsOptions.OptionsRoundTrip | src/smb.hpp:23-53 | For a comma-free user name and any password the option text reads back as exactly the intended options |
| CifsOptions.Credentials.EscapeComma | src/utils.hpp:73-85 | The loop doubles every comma |
| CifsOptions.Credentials.EscapeCommas | src/utils.hpp:58-65 | However often it is called, the commas are doubled once |
| CifsOptions.MountSmb | src/smb.hpp:18-81 | Nothing is mounted if and only if the user name has a comma; otherwise each option string handed over reads back as the login given, with the lower version only after a failure |
| CifsOptions.ReportedErrors | src/smb.hpp:62-75 | Which error numbers of a mount are reported as EPERM, EHOSTUNREACH and ECONNREFUSED, and that all others are reported as they are |
| Inactivity.ExpiredIffDue | src/state/active_state.hpp:30-42 | The watch expires at a tick if and only if the timeout has passed there since the epoch and since every reading that differs from the nearest earlier one |
| Inactivity.StaysDue | src/state/active_state.hpp:33-42 | Ticks that read nothing new, or nothing at all, never put off what is due |
| Inactivity.IdleIsWhole | src/state/active_state.hpp:39-41 | Idle time is counted in whole seconds, rounded down |
| Inactivity.Deadline | src/state/active_state.hpp:30-58 | The first expiry is the first tick at which the unmount is due on the schedule itself and, after the first tick, less than one gap after the timeout has passed since the epoch or some new reading |
| Inactivity.FirstTickExpiresIff | src/state/active_state.hpp:32-54 | The first tick expires if and only if there is no timeout, or nothing new could be read and the clock has run for the timeout |
| Inactivity.ActiveState.OnTick | src/state/active_state.hpp:24-62 | Re-armed if and only if not expired, and then remaining time and idle seconds add up to the timeout |
| Inactivity.ActiveState.Watch | src/state/active_state.hpp:22-67 | One unmount is posted, at the first tick at which it is due on the schedule itself, or none if there is no such tick |
| Retry.CostBound | src/system.hpp:1062-1132 | Any number of attempts makes at most that many calls and sleeps at most that many times delay plus ten seconds |
| Retry.AcceptedSettingsBound | src/vm_interface.cpp:186-210 | With settings SetAll accepts a reconnect sleeps at most 240 seconds |
| Retry.Interface.SetAll | src/vm_interface.cpp:186-210 | Settings change if and only if both are in range |
| Retry.SucceedsIffSeenUp | src/system.hpp:1068-1116 | An attempt succeeds if and only if the slot is up before the call, or the call is answered and one of ten polls finds it up with all earlier ones finding it down |
| Retry.MadeIff | src/system.hpp:1062-1132 | The attempts made are exactly those up to the first that sees the slot up |
| Retry.AttemptCosts | src/system.hpp:1068-1116 | Whether an attempt calls, and how long it sleeps, told by its outcome and the number of polls |
| Retry.CallsAreCounted | src/system.hpp:1102 | The calls counted are the attempts that send one |
| Retry.Reconnector.RetryMount | src/system.hpp:1037-1139 | For every number of retries with which it ends: attempts stop at the first that sees the slot up; credentials that were there survive if and only if one does; the bound holds |

## Left out

- SlotModel.Dispatch: requires a target for a mount on a slot that is not in proxy mode, and a notification outside Initial. The original would read an absent optional or a null pointer; no D-Bus method of a loaded slot leads there (`SlotRuns.WellFormedIsLegal`, `Configuration.SetupVariables`).
- SystemRuns.ExclusionInEveryRun: assumes that local paths enter through Local.Mount only and that the file being served is present at each Local.Mount; `NextKeepsExclusionIff` says exactly what happens otherwise.
- Retry.Reconnector.RetryMount: requires that the loop ends: with the largest unsigned number of retries the counter wraps around, so only a success ends it. It assumes no other thread writes the credentials, and takes the outcome of each attempt as an input.
- CredentialPipe.ReadCredentials: works on characters below 256 as bytes, and one read of at most 1024 of them.
- CifsOptions.MountSmb: the reader of option strings is the convention the writer relies on (doubled comma for a comma), not the kernel's own parser.
- Inactivity.ActiveState.OnTick: clock readings are given; its remaining-time field lives here and not in the slot, and Ready's resetting of it is not modelled.
- Legacy mode is taken as enabled and the multi-host default as disabled, as in meson_options.txt; the number in a slot's name (0, 1 or none) is given as a value.
- The live Active state is the one in src/state/active_state.hpp; src/state/active_state.cpp is not compiled.
- D-Bus transport and registration of properties, udev, fork, signals of the operating system, argument lists of nbdkit and nbd-client: their outcomes are inputs.
- USB gadget configuration: a status and a removal. Mounting of shares: an error number, except for the option strings of CIFS.
- Saving image URLs and settings to JSON, the volatile file that passes a password to nbdkit, the copy of the login kept for a reconnect at activation.
- Cleaning up mount points left by an earlier run of the service, before registration.
- Exceptions of filesystem calls while a state is entered, and of destructors.
- An inactivity unmount that is posted and arrives after Active has been left: it is an ordinary unmount here, refused in most states, where the original lets the refusal escape into the event loop.
- The detached mount monitor thread and the unmount-and-retry flags around the retry loop.
- JSON parsing; configuration items are taken as objects whose members are missing, of another type, or as asked for.
- Wiping of secrets in memory.
- The slot's own copy of a password keeps its commas single; doubling happens on the object of `CifsOptions.Credentials`.
