# GPS HAL algorithms in Dafny

This project models the stateful algorithms of the GPS hardware abstraction layer and proves
what they promise over every run: the timer service and the heap under it, the AGPS connection
state machines and their manager, the status observer's subscription index, the tracking
multiplexer, the on-demand position (ODCPI) throttle, the datagram framing of the local IPC,
and the bounded report history.

Each part has two halves. A specification half states the state, the steps and the runs as
values, and proves invariants and run-level results about them. A program half has the classes
of the source, with their fields, loops and in-place updates; every method is proved to make
exactly the step of the specification, so the run-level results are about the program too.

| part | specification | program |
|---|---|---|
| heap | `HeapTree.dfy` | `LocHeap.dfy` |
| timers | `Deadline.dfy`, `TimerLedger.dfy`, `TimerService.dfy`, `TimerGuarantees.dfy`, `TimerPunctuality.dfy`, `TimerRanking.dfy`, `TimerTerms.dfy` | `TimerProgram.dfy` |
| AGPS | `AgpsSpec.dfy`, `AgpsGuarantees.dfy`, `AgpsTransitions.dfy`, `AgpsRouting.dfy` | `AgpsMachine.dfy`, `AgpsManager.dfy` |
| observer | `SetMap.dfy`, `Subscription.dfy`, `SubscriptionGuarantees.dfy`, `SubscriptionCalls.dfy` | `SetMap.dfy`, `ObserverProgram.dfy` |
| tracking | `Tracking.dfy` | `TrackingProgram.dfy` |
| ODCPI | `Odcpi.dfy`, `OdcpiSends.dfy`, `OdcpiRuns.dfy` | `OdcpiProgram.dfy` |
| IPC | `IpcFraming.dfy` | `IpcFraming.dfy` (module `IpcProgram`) |
| history | `ReportHistory.dfy` | `ReportHistory.dfy` (module `ReportProgram`) |

`dafny verify dfyconfig.toml` checks everything.

## What turned out otherwise than documented

- `LocHeap::remove` is documented to find a node that ranks the same as its argument; it finds
  the argument itself, by address. The model follows the code.
- The comment above the update in the timer Remove message says the device is updated only if
  the removed timer was not the top one; the code updates it exactly when it was.
- Removing the last timer neither disarms nor unpolls its device
  (`TimerGuarantees.RemovingLastTimerKeepsDevice`; a run that leaves it armed is
  `TimerPunctuality.EmptyHeapStaysArmed`); the disarming branch is dead
  (`TimerGuarantees.MessageThreadNeverDisarms`).
- A timer may be called back before its deadline: exactly when an Expire message finds it, not
  due yet, on top of the heap, because the first pop does not look at the clock
  (`TimerPunctuality.CallbackIsEarlyIff`). One client restarting its timer as it goes off is
  called back a whole period early (`TimerPunctuality.EarlyCallback`).
- Ranking truncates a difference of seconds to `int`; `Deadline.RanksBeyondInt` says exactly
  when it then goes against the deadlines, `Deadline.RanksAgainstInstants` is such a pair.
- `LocUnorderedSetMap::update` is documented to return the values it drops; it returns those it
  keeps. `updateSubscription` therefore keeps the two maps inverse exactly when the client had
  no items (`Subscription.UpdatedInverse`), and keeps every item leading to its client exactly
  when the new list names no item that the client already had
  (`SubscriptionGuarantees.UpdatedCovers`). On an item that it does name again the client goes
  silent until it subscribes to it, or gives it up and comes back to it: over every run it is
  told of a change unless it is `Silent` in just that sense
  (`SubscriptionGuarantees.TellsUnlessSilent`, with a run in
  `SubscriptionGuarantees.SilencedByUpdate`). Returning the values dropped would always keep the
  maps inverse (`Subscription.UpdatedAsDocumentedInverse`).
- A subscription object that is set again after another was set may hold requests for items
  nobody wants any more (`SubscriptionGuarantees.SetAgreesIff`, with a run in
  `SubscriptionGuarantees.StaleObjectDisagrees`).
- An AGPS handle that is requested again is granted twice or lives twice exactly if that comes
  after its life is over or while it is served (`AgpsGuarantees.LivesAreLawful`);
  `AgpsGuarantees.ReusedHandleToldTwice` is such a run.
- Tracking session ids come back after 2^32 - 2 of them. A start under a key in use leaves the
  engine at the wrong interval exactly in the case `Tracking.ReusedKey` states;
  `Tracking.WrappedKeyBreaks` is a run that gets there.
- ODCPI requests come too soon exactly as `Odcpi.PlainTooSoonIff`, `Odcpi.TooSoonIff`,
  `Odcpi.LateTooSoonIff` and `Odcpi.EarlyTooSoonIff` say: emergency upgrades are not rate
  limited (`OdcpiRuns.UpgradesAreNotBounded`), an expiry that is handled late can repeat a
  request at once (`OdcpiRuns.LateHandlingRepeats`), and so can one that takes the timer an
  upgrade has just restarted, which the timer service allows (`OdcpiRuns.EarlyExpiryRepeats`).
- ODCPI ignores whether its timer starts; a request whose timer was refused is stuck until an
  upgrade (`Odcpi.RefusedIsStuck`, `OdcpiRuns.RefusedRun`).
- After clean messages the next one sent over the local IPC arrives as sent exactly when it is
  clean behind what the receive buffer holds (`IpcFraming.DeliversNextIff`);
  whole sequences do exactly when all their messages are clean (`IpcFraming.ArrivesIff`);
  `IpcFraming.StaleDigitSpoils` and `IpcFraming.HeaderTwice` are runs that lose a message.

## Model

| member | source | states |
|---|---|---|
| HeapTree.CheckNodesIsHeap | gps/utils/LocHeap.cpp:195-220 | checkNodes accepts exactly the trees that are ordered and whose every stored size is the node count of its subtree |
| HeapTree.PushElements | gps/utils/LocHeap.cpp:107-124 | push adds the item to the stored multiset and nothing else |
| HeapTree.PushHeap | gps/utils/LocHeap.cpp:107-124 | push keeps order and exact sizes |
| HeapTree.PopElements | gps/utils/LocHeap.cpp:134-164 | pop takes one occurrence of the top item out of the multiset |
| HeapTree.PopPromotes | gps/utils/LocHeap.cpp:144-154 | a pop moves the higher ranking child up, the right one on a tie |
| HeapTree.PopHeap | gps/utils/LocHeap.cpp:134-164 | pop keeps order and exact sizes |
| HeapTree.TopOutranked | gps/utils/LocHeap.h:54-58 | nothing stored outranks the top of an ordered heap |
| HeapTree.RemoveFinds | gps/utils/LocHeap.cpp:170-193 | removal finds the object exactly when the heap stores it, so rank pruning never hides it |
| HeapTree.RemoveElements | gps/utils/LocHeap.cpp:170-193 | removal takes exactly that object out of the multiset |
| HeapTree.RemoveHeap | gps/utils/LocHeap.cpp:170-193 | removal keeps order and exact sizes |
| HeapTree.PushOnlyBalance | gps/utils/LocHeap.cpp:101-124 | in a heap built by pushes alone every node's left size minus right size is 0 or 1, and 2^(h-1) <= n < 2^h |
| HeapTree.ApplyIsBagStep | gps/utils/LocHeap.cpp:107-193 | each operation on a heap is a step of an identity-keyed priority multiset, with its answer |
| HeapTree.HeapRefinesBag | gps/utils/LocHeap.cpp:107-220 | after any sequence of operations the next one answers as the priority multiset does, and the heap stays a heap |
| HeapObjects.LocHeapNode.Push | gps/utils/LocHeap.cpp:107-124 | on linked nodes, swapping data in place, push yields the pushed tree and keeps the nodes apart |
| HeapObjects.LocHeapNode.Pop | gps/utils/LocHeap.cpp:134-164 | on linked nodes pop swaps the top data down to the node it detaches and leaves the popped tree |
| HeapObjects.LocHeapNode.Remove | gps/utils/LocHeap.cpp:170-193 | on linked nodes removal detaches the node with the object's address or changes nothing |
| HeapObjects.LocHeap.Push | gps/utils/LocHeap.cpp:228-235 | the heap object's tree becomes the pushed tree |
| HeapObjects.LocHeap.Peek | gps/utils/LocHeap.cpp:237-243 | the top item, or none for an empty heap |
| HeapObjects.LocHeap.Pop | gps/utils/LocHeap.cpp:245-254 | answers and changes as the specification's pop, the empty heap included |
| HeapObjects.LocHeap.Remove | gps/utils/LocHeap.cpp:256-268 | answers and changes as the specification's removal, the empty heap included |
| Deadline.FutureTimeIsLater | gps/utils/LocTimer.cpp:557-564 | start computes a normalised time exactly the timeout after the clock reading |
| Deadline.RanksIsInstantOrder | gps/utils/LocTimer.cpp:509-523 | within int range ranking is exactly the order of the instants, with ties only for equal times |
| Deadline.RanksBeyondInt | gps/utils/LocTimer.cpp:509-523 | for any distance, what the truncated difference says, and exactly when that goes against the deadlines |
| Deadline.RanksAgainstInstants | gps/utils/LocTimer.cpp:515-520 | two deadlines 2^31 seconds apart of which the sooner is outranked |
| Deadline.StartedTimersAreOrdered | gps/utils/LocTimer.cpp:509-564 | timers started within 67 years of each other rank by their instants, for every 32-bit timeout |
| TimerRanking.FutureTimeIsSpec | gps/utils/LocTimer.cpp:557-564 | the time start computes is the timespec of the deadline the model stores |
| TimerRanking.RanksAsHeaped | gps/utils/LocTimer.cpp:509-523 | in every run of at most 2^31 - 2^23 seconds the 32-bit ranking of any two timers is the order of the deadlines the heap is kept by |
| TimerLedger.StartInv | gps/utils/LocTimer.cpp:553-576 | starting keeps the message, back-pointer, placement, lock and history invariants |
| TimerLedger.ClientStopInv | gps/utils/LocTimer.cpp:578-591 | so does stopping, which detaches the delegate and sends its one Remove |
| TimerLedger.DestroyInv | gps/utils/LocTimer.cpp:545-551 | so does destroying a timer, whose share of the lock is dropped |
| TimerLedger.ProcRemoveInv | gps/utils/LocTimer.cpp:331-353 | so does handling a Remove: the delegate is in no heap when it is deleted |
| TimerLedger.PopAndExpireInv | gps/utils/LocTimer.cpp:526-538 | so does expiring the top delegate, with or without a client left |
| TimerService.RunInv | gps/utils/LocTimer.cpp:283-385 | every run keeps the ledger's invariants, both heaps covered, and what the message thread has established |
| TimerGuarantees.NoTimerLost | gps/utils/LocTimer.cpp:283-385 | in every interleaving a non-empty heap is polled and armed at its first deadline, or an Expire is queued, drained or on its way, or the arming of its first deadline is the next step |
| TimerGuarantees.RunningTimerIsArmed | gps/utils/LocTimer.cpp:283-329 | with the threads idle, every running timer's device is polled and armed no later than its deadline |
| TimerGuarantees.NoTimerIsOverdue | gps/utils/LocTimer.cpp:283-385 | once no message, poll or device step is left to take, every running timer's deadline is still to come |
| TimerGuarantees.DelegateLifetime | gps/utils/LocTimer.cpp:331-353 | one Push, at most one Remove, at most one deletion per delegate, and no heap, message or client refers to it afterwards |
| TimerGuarantees.NoDanglingDelegate | gps/utils/LocTimer.cpp:309-353 | whatever a heap stores or a message names is not deleted |
| TimerGuarantees.ResolvedAtMostOnce | gps/utils/LocTimer.cpp:526-591 | each successful start is resolved at most once, by a callback or by a stop that returned true, never both, and is unresolved exactly while the delegate has its client |
| TimerGuarantees.BackPointers | gps/utils/LocTimer.cpp:478-507 | a client's timer and a delegate's client always point at each other |
| TimerGuarantees.LockCount | gps/utils/LocSharedLock.h:42-57 | a shared lock counts its live client and undeleted delegates and is freed once, exactly when none is left |
| TimerGuarantees.ExpiryDrain | gps/utils/LocTimer.cpp:358-394 | one Expire pops in deadline order, after the first pop only what is due, and nothing left is sooner |
| TimerGuarantees.DrainStopsWhenLater | gps/utils/LocTimer.cpp:366-376 | the drain stops exactly when every timer left is strictly later than its clock reading |
| TimerGuarantees.MessageThreadNeverDisarms | gps/utils/LocTimer.cpp:291-296 | the disarming branch is never reached |
| TimerGuarantees.RemovingLastTimerKeepsDevice | gps/utils/LocTimer.cpp:338-348 | removing the last timer leaves the device as it was |
| TimerTerms.StartGivesTimer | gps/utils/LocTimer.cpp:553-571 | over every run a start of a timer not running gives its client a new one, due exactly the timeout after the clock, in the container asked for |
| TimerTerms.StartGivesNothing | gps/utils/LocTimer.cpp:556-572 | a start of a running timer, or without a container, changes nothing |
| TimerTerms.StopEndsTimer | gps/utils/LocTimer.cpp:578-591 | a stop of a running timer ends it for the client and queues its Remove |
| TimerTerms.TimersAreAsAsked | gps/utils/LocTimer.cpp:478-488 | over every run each timer there is was made by one start, and its deadline, container and client are what that start asked, from the actions alone |
| TimerTerms.RunningAsAsked | gps/utils/LocTimer.cpp:283-329 | with the threads idle a running timer is in its container's heap by the deadline asked, in no other, and that container's device is armed by the first deadline there |
| TimerTerms.CallbackAsAsked | gps/utils/LocTimer.cpp:363-377 | a callback comes before the deadline its timer was asked for exactly when it is popped early |
| TimerTerms.NowIsClock | gps/utils/LocTimer.cpp:558-558 | the clock is boot and the ticks |
| TimerTerms.WakesOnlyDue | gps/utils/LocTimer.cpp:450-474 | the poll thread takes up only devices that are polled and due |
| TimerTerms.DrainReadsClock | gps/utils/LocTimer.cpp:364-367 | a drain goes by the clock reading taken when its Expire was handled |
| TimerTerms.ExpirySteps | gps/utils/LocTimer.cpp:380-384 | the poll thread disarms, then unpolls, then queues the Expire of that container |
| TimerPunctuality.CallbackIsEarlyIff | gps/utils/LocTimer.cpp:363-377 | over every run and for every step, a callback comes before its deadline exactly when an Expire message finds that timer, not due yet, on top of the heap with its client still there |
| TimerPunctuality.CallbackIff | gps/utils/LocTimer.cpp:366-392 | over every run each client is called back exactly, and once, when its timer is popped: the first one for an Expire, or a due one after it |
| TimerPunctuality.EarlyCallback | gps/utils/LocTimer.cpp:366-375 | a run of one client that restarts its timer as it goes off and is called back ten seconds early |
| TimerPunctuality.EmptyHeapStaysArmed | gps/utils/LocTimer.cpp:287-345 | a run that ends with an empty heap and its device armed and polled |
| TimerProgram.LocTimerContainer.UpdateSoonestTime | gps/utils/LocTimer.cpp:283-307 | when the poll set changes and which time is to be set, from the top before and after |
| TimerProgram.LocTimers.Start | gps/utils/LocTimer.cpp:553-576 | performs the start step; succeeds exactly when no timer was running and the container exists |
| TimerProgram.LocTimers.Stop | gps/utils/LocTimer.cpp:578-591 | performs the stop step; true exactly when a timer was running |
| TimerProgram.LocTimers.Destroy | gps/utils/LocTimer.cpp:545-551 | performs the destroy step |
| TimerProgram.LocTimers.Expire | gps/utils/LocTimer.cpp:526-538 | calls back exactly when the client was still there to be stopped |
| TimerProgram.LocTimers.PollExpire | gps/utils/LocTimer.cpp:380-384 | performs the poll thread's disarm, unpoll and send |
| TimerProgram.LocTimers.ProcPush | gps/utils/LocTimer.cpp:320-324 | performs the Push step and sets the device |
| TimerProgram.LocTimers.ProcRemove | gps/utils/LocTimer.cpp:337-349 | performs the Remove step, the deletion last, and sets the device |
| TimerProgram.LocTimers.ProcExpire | gps/utils/LocTimer.cpp:363-377 | the loop over pops performs the whole drain and sets the device |
| AgpsSpec.DemandAlternates | gps/gnss/Agps.cpp:72-314 | over every run, modem restarts included, requests and releases to the framework alternate, and a demand is outstanding exactly in PENDING and ACQUIRED |
| AgpsGuarantees.ListInvariant | gps/gnss/Agps.cpp:72-290 | on every run handles are distinct, inactive entries wait for the close, RELEASED has an empty list, PENDING and ACQUIRED are never all inactive; without modem restart they have an active and RELEASING an inactive subscriber |
| AgpsGuarantees.ReleasingKeepsSubscribers | gps/gnss/Agps.cpp:167-172 | without modem restart an unsubscribe never empties the list in RELEASING |
| AgpsGuarantees.LivesAreLawful | gps/gnss/Agps.cpp:72-436 | over every run a subscription is granted at most once and ends once, when it leaves the list, exactly if its handle is not requested again after its end or while it is served; where it stands then follows from the machine's state and its entry |
| AgpsGuarantees.FreshIsNeverBad | gps/gnss/Agps.cpp:770-796 | a handle requested only once is never requested again badly |
| AgpsGuarantees.NothingAfterTheEnd | gps/gnss/Agps.cpp:351-386 | after its terminal notification, or a drop, nothing more is said about a handle |
| AgpsGuarantees.ListedOrTold | gps/gnss/Agps.cpp:398-436 | without modem restart a requested subscriber has left the list exactly when it was told its end |
| AgpsGuarantees.LivesFollow | gps/gnss/Agps.cpp:72-436 | each input grants, fails, ends or loses exactly the subscribers it should, and takes exactly the ended ones off the list |
| AgpsGuarantees.ReusedHandleToldTwice | gps/gnss/Agps.cpp:98-103 | a run that requests a handle again while it is served and tells its grant twice |
| AgpsGuarantees.SubscribersConserved | gps/gnss/Agps.cpp:316-513 | subscribers accepted equal those listed plus those told an end plus those dropped |
| AgpsTransitions.StatesFollow | gps/gnss/Agps.cpp:72-290 | over every run the state after each input, by who else is listed and active; a modem restart leaves it alone |
| AgpsTransitions.CallsFollow | gps/gnss/Agps.cpp:296-314 | each input sends the framework at most one call: a request on coming to PENDING, a release when an unsubscribe leaves PENDING or ACQUIRED |
| AgpsMachine.AgpsStateMachine.GetSubscriber | gps/gnss/Agps.cpp:472-485 | the first listed object with the handle, or null exactly when there is none |
| AgpsMachine.AgpsStateMachine.AddSubscriber | gps/gnss/Agps.cpp:398-417 | appends a copy unless the handle is listed |
| AgpsMachine.AgpsStateMachine.DeleteSubscriber | gps/gnss/Agps.cpp:419-436 | erases every entry with the handle while iterating, and no other |
| AgpsMachine.AgpsStateMachine.NotifyAllSubscribers | gps/gnss/Agps.cpp:316-349 | tells exactly the addressed entries, in list order, and erases exactly those if asked |
| AgpsMachine.AgpsStateMachine.DropAllSubscribers | gps/gnss/Agps.cpp:502-513 | empties the list without telling anyone |
| AgpsMachine.AgpsStateMachine.ProcessSubscribe | gps/gnss/Agps.cpp:72-114 | performs the subscribe step in each state |
| AgpsMachine.AgpsStateMachine.ProcessUnsubscribe | gps/gnss/Agps.cpp:116-178 | performs the unsubscribe step in each state |
| AgpsMachine.AgpsStateMachine.ProcessGranted | gps/gnss/Agps.cpp:180-201 | performs the granted step in each state |
| AgpsMachine.AgpsStateMachine.ProcessReleased | gps/gnss/Agps.cpp:203-248 | performs the released step in each state |
| AgpsMachine.AgpsStateMachine.ProcessDenied | gps/gnss/Agps.cpp:250-290 | performs the denied step in each state |
| AgpsMachine.AgpsStateMachine.ProcessAgpsEvent | gps/gnss/Agps.cpp:40-70 | the machine stays where its inputs lead, whatever the event |
| AgpsRouting.RequestsConserved | gps/gnss/Agps.cpp:770-796 | every request is refused or told to exactly one machine |
| AgpsRouting.OneLifePerRequest | gps/gnss/Agps.cpp:739-830 | over every run of manager calls, a handle requested at most once lives lawfully in at most one machine, and in exactly one if its request was not refused |
| AgpsRouting.ReleaseReaches | gps/gnss/Agps.cpp:798-830 | after a release the handle is listed nowhere, unless as an inactive entry waiting for the close |
| AgpsRouting.RequestGoes | gps/gnss/Agps.cpp:739-796 | over every run, by type, which machine a request is subscribed at and whether it waits for the close, or that it is refused |
| AgpsRouting.ReportGoes | gps/gnss/Agps.cpp:850-885 | by type, which machine is told of a success, a failure and a close, as which event |
| AgpsRouting.ReleaseGoes | gps/gnss/Agps.cpp:798-830 | a release goes to the first machine that lists the handle, or is refused |
| AgpsRouting.CreateMakes | gps/gnss/Agps.cpp:703-725 | which machines there are after a creation; none is made twice or goes away |
| AgpsRouting.RestartGoes | gps/gnss/Agps.cpp:887-902 | both machines are told of a modem restart |
| AgpsRouting.ReportsReach | gps/gnss/Agps.cpp:850-902 | handles listed at the machine of the type are granted, fail or end, or are lost in a restart |
| AgpsManagerProgram.AgpsManager.CreateAgpsStateMachines | gps/gnss/Agps.cpp:703-725 | creates the machines that are missing, the AGNSS one only if capable |
| AgpsManagerProgram.AgpsManager.GetAgpsStateMachine | gps/gnss/Agps.cpp:739-768 | the AGNSS machine for SUPL, emergency SUPL and no type, the internet machine for the rest, without the emergency PDN |
| AgpsManagerProgram.AgpsManager.RequestATL | gps/gnss/Agps.cpp:770-796 | refuses without a machine, else subscribes, waiting for the close only for the emergency type |
| AgpsManagerProgram.AgpsManager.ReleaseATL | gps/gnss/Agps.cpp:798-830 | unsubscribes at the first machine that lists the handle, else refuses |
| AgpsManagerProgram.AgpsManager.ReportAtlOpenSuccess | gps/gnss/Agps.cpp:850-867 | the type's machine is granted; the other is untouched |
| AgpsManagerProgram.AgpsManager.ReportAtlOpenFailed | gps/gnss/Agps.cpp:869-876 | the type's machine is denied; the other is untouched |
| AgpsManagerProgram.AgpsManager.ReportAtlClosed | gps/gnss/Agps.cpp:878-885 | the type's machine is released; the other is untouched |
| AgpsManagerProgram.AgpsManager.HandleModemSSR | gps/gnss/Agps.cpp:887-902 | both machines drop their subscribers |
| SetMap.TrimSet | gps/utils/LocUnorderedSetMap.h:44-51 | leaves the difference and reports the intersection |
| SetMap.RemoveAndReturnInterset | gps/utils/LocUnorderedSetMap.h:57-70 | returns the intersection and takes it out of both sets |
| SetMap.LocUnorderedSetMap.TrimOrRemove | gps/utils/LocUnorderedSetMap.h:131-139 | trims the entries of the keys, drops those left empty, and reports both |
| SetMap.LocUnorderedSetMap.Add | gps/utils/LocUnorderedSetMap.h:164-171 | adds the values to the entries of the keys and reports the new keys |
| SetMap.LocUnorderedSetMap.Update | gps/utils/LocUnorderedSetMap.h:176-188 | replaces the entry, returning what is kept and leaving what is new |
| SetMap.TrimmedKeys | gps/utils/LocUnorderedSetMap.h:77-89 | trimming removes exactly the keys it reports and leaves no empty entry |
| Subscription.SubscribedInverse | gps/core/SystemStatusOsObserver.cpp:102-106 | subscribing keeps the two maps inverse without empty entries |
| Subscription.UnsubscribedInverse | gps/core/SystemStatusOsObserver.cpp:222-229 | unsubscribing keeps them inverse and takes exactly the items from that client |
| Subscription.UnsubscribedAllInverse | gps/core/SystemStatusOsObserver.cpp:261-267 | unsubscribing from everything keeps them inverse |
| Subscription.UpdatedInverse | gps/core/SystemStatusOsObserver.cpp:150-171 | the literal update keeps them inverse exactly when the client had no items |
| Subscription.UpdatedAsDocumentedInverse | gps/utils/LocUnorderedSetMap.h:173-175 | returning the dropped values would always keep them inverse |
| Subscription.IndexIsInverse | gps/core/SystemStatusOsObserver.cpp:92-295 | inverse over every run in which updates are only for clients without items |
| SubscriptionGuarantees.MapsTell | gps/core/SystemStatusOsObserver.cpp:92-295 | over every run, literal updates included, both maps as functions of the messages alone |
| SubscriptionGuarantees.ServedUnlessSilent | gps/core/SystemStatusOsObserver.cpp:150-171 | a registered client is missing from its item's set exactly since an update that named the item though it had it, and while it has neither given it up nor subscribed to it |
| SubscriptionGuarantees.ServedIfStale | gps/core/SystemStatusOsObserver.cpp:150-171 | a client not registered is left in an item's set exactly since an update dropped the item while the client was not silent on it |
| SubscriptionGuarantees.InverseIff | gps/core/SystemStatusOsObserver.cpp:92-295 | over every run the maps are inverse exactly when no client is silent on an item or left behind by one |
| SubscriptionGuarantees.ServedIfRegistered | gps/core/SystemStatusOsObserver.cpp:92-295 | they are when updates are only for clients without items, and the item keys are then those somebody is registered for |
| SubscriptionGuarantees.DeltaIsKeyDifference | gps/core/SystemStatusOsObserver.cpp:102-282 | what the framework is told is exactly the difference of the key sets, literal updates included |
| SubscriptionGuarantees.SetAgreesIff | gps/core/SystemStatusOsObserver.cpp:69-79 | setting a subscription object makes it agree with the index exactly when it held no stale request |
| SubscriptionGuarantees.FrameworkAgrees | gps/core/SystemStatusOsObserver.cpp:62-295 | over every run, literal updates included, that sets no object holding a stale request, the object set has been asked for exactly the items in the index |
| SubscriptionGuarantees.NewObjectsAreClean | gps/core/SystemStatusOsObserver.cpp:62-87 | an object not set before, or set already, holds no stale request |
| SubscriptionGuarantees.StaleObjectDisagrees | gps/core/SystemStatusOsObserver.cpp:69-79 | a run that sets an object again and leaves it asked for an item nobody wants |
| SubscriptionGuarantees.NotifyTells | gps/core/SystemStatusOsObserver.cpp:309-342 | in any state each client that a changed item leads to hears, in one call, exactly its items that changed and their new values; nobody else is called |
| SubscriptionGuarantees.NotifiesExactly | gps/core/SystemStatusOsObserver.cpp:309-342 | when every item leads to its clients, exactly the clients holding a changed item are called |
| SubscriptionGuarantees.UpdatedCovers | gps/core/SystemStatusOsObserver.cpp:150-171 | a literal update keeps every item leading to its clients exactly when it names none the client already had |
| SubscriptionGuarantees.CoversIff | gps/core/SystemStatusOsObserver.cpp:92-295 | over every run that holds exactly when no client is silent on an item |
| SubscriptionGuarantees.ClientsAreUpToDate | gps/core/SystemStatusOsObserver.cpp:513-539 | over every run, literal updates included, each client last heard the cached value of every item it is registered for and not silent on |
| SubscriptionGuarantees.TellsUnlessSilent | gps/core/SystemStatusOsObserver.cpp:309-342 | over every run, when an item changes a client registered for it is told the new value, unless it is silent on it, and then hears nothing |
| SubscriptionGuarantees.SilencedByUpdate | gps/core/SystemStatusOsObserver.cpp:150-174 | a run whose client names its item again and misses the next change |
| SubscriptionCalls.SubscribeTells | gps/core/SystemStatusOsObserver.cpp:102-107 | a subscriber is told, in one call, the cached ones of exactly the items it names; nobody else is told |
| SubscriptionCalls.UpdateTells | gps/core/SystemStatusOsObserver.cpp:150-174 | a client that updates is told the cached ones of exactly the items it names and did not have |
| SubscriptionCalls.OthersTellNobody | gps/core/SystemStatusOsObserver.cpp:213-295 | the other messages but notify tell nobody |
| SubscriptionCalls.ToldOnlyRegistered | gps/core/SystemStatusOsObserver.cpp:513-539 | over every run each message calls a client at most once, and only with items it is registered for then, at their cached values |
| SubscriptionCalls.SetObjectCalls | gps/core/SystemStatusOsObserver.cpp:69-79 | a new subscription object is subscribed to all keys and asked for all their data, unless there are none |
| SubscriptionCalls.ChangedIff | gps/core/SystemStatusOsObserver.cpp:313-317 | notify tells of exactly the items of which some report gave another value than was known when it came |
| SubscriptionCalls.CacheIsLatest | gps/core/SystemStatusOsObserver.cpp:541-572 | over every run the cache holds the latest accepted report of every item |
| ObserverProgram.SystemStatusOsObserver.Subscribe | gps/core/SystemStatusOsObserver.cpp:92-139 | performs the subscribe or requestData step, ignoring empty lists and null clients |
| ObserverProgram.SystemStatusOsObserver.UpdateSubscription | gps/core/SystemStatusOsObserver.cpp:141-211 | performs the literal update step |
| ObserverProgram.SystemStatusOsObserver.Unsubscribe | gps/core/SystemStatusOsObserver.cpp:213-252 | performs the unsubscribe step |
| ObserverProgram.SystemStatusOsObserver.UnsubscribeAll | gps/core/SystemStatusOsObserver.cpp:254-295 | performs the unsubscribeAll step |
| ObserverProgram.SystemStatusOsObserver.SetSubscriptionObj | gps/core/SystemStatusOsObserver.cpp:62-87 | subscribes and requests all keys at the new object, if there are any |
| ObserverProgram.SystemStatusOsObserver.Notify | gps/core/SystemStatusOsObserver.cpp:297-374 | its loops over items and clients perform the notify step |
| ObserverProgram.SystemStatusOsObserver.UpdateCache | gps/core/SystemStatusOsObserver.cpp:541-572 | records an accepted item and tells whether the cached value changed |
| ObserverProgram.SystemStatusOsObserver.SendCachedDataItems | gps/core/SystemStatusOsObserver.cpp:513-539 | one call with the cached ones of the items, or none |
| Tracking.EngineIsShared | gps/gnss/GnssAdapter.cpp:1474-1755 | over every run that starts no session under a key in use, the engine fixes exactly when there is a session, at the smallest interval of all, whichever starts and stops the engine refuses |
| Tracking.KeysFreshUntilWrap | gps/core/LocAdapterBase.cpp:55-61 | when each start uses an id drawn for it earlier, no key is used twice until session ids come back |
| Tracking.WrappedKeyBreaks | gps/core/LocAdapterBase.cpp:55-61 | a run in which a live key comes back and leaves the engine at an interval no session has |
| Tracking.OptionsAreSet | gps/gnss/GnssAdapter.cpp:1477-1485 | saved options never have size zero, so the unset sentinel is sound |
| Tracking.IdAfter | gps/core/LocAdapterBase.cpp:55-61 | the session id as a function of how many were generated: the cycle has 2^32 - 2 of them |
| Tracking.ReusedKey | gps/gnss/GnssAdapter.cpp:1371-1376 | exactly when starting under a key in use leaves the engine at the wrong interval, whether or not the engine would start |
| Tracking.SessionsAreWanted | gps/gnss/GnssAdapter.cpp:1474-1721 | while the engine obeys, the sessions are exactly those the messages started, updated and did not stop |
| Tracking.StartSavedIff | gps/gnss/GnssAdapter.cpp:1474-1521 | a well formed start is saved unless no session is as fast and the engine refuses |
| Tracking.UpdateSavedIff | gps/gnss/GnssAdapter.cpp:1618-1682 | an update is saved unless the engine refuses a restart that the others make necessary |
| Tracking.StopErasedIff | gps/gnss/GnssAdapter.cpp:1703-1755 | a session is erased unless no other is as fast and the engine refuses |
| Tracking.StartedShares | gps/gnss/GnssAdapter.cpp:1498-1521 | starting under a fresh key keeps the engine shared |
| Tracking.UpdatedShares | gps/gnss/GnssAdapter.cpp:1646-1682 | updating keeps the engine shared |
| Tracking.StoppedShares | gps/gnss/GnssAdapter.cpp:1724-1755 | stopping keeps the engine shared |
| Tracking.RestartShares | gps/gnss/GnssAdapter.cpp:1222-1245 | after the engine came up, any session map is served again exactly when the start succeeds or there is none to serve |
| TrackingProgram.GnssAdapter.GenerateSessionId | gps/core/LocAdapterBase.cpp:55-61 | performs the id step |
| TrackingProgram.GnssAdapter.SmallestInterval | gps/gnss/GnssAdapter.cpp:1506-1512 | the loop with the size-zero sentinel finds saved options with the smallest interval |
| TrackingProgram.GnssAdapter.StartTrackingMultiplex | gps/gnss/GnssAdapter.cpp:1498-1521 | restarts the engine only for a smaller interval, and fails only if the engine does |
| TrackingProgram.GnssAdapter.UpdateTrackingMultiplex | gps/gnss/GnssAdapter.cpp:1646-1682 | restarts the engine for the new options or the next smallest, as the others demand |
| TrackingProgram.GnssAdapter.StopTrackingMultiplex | gps/gnss/GnssAdapter.cpp:1724-1755 | stops the engine for the last session, else restarts it if this one was fastest |
| TrackingProgram.GnssAdapter.StartTrackingCommand | gps/gnss/GnssAdapter.cpp:1451-1453 | draws the session's key in the caller's thread |
| TrackingProgram.GnssAdapter.MsgStartTracking | gps/gnss/GnssAdapter.cpp:1474-1489 | performs the start step, later; which error each case is answered with, and success exactly when the session was saved |
| TrackingProgram.GnssAdapter.UpdateTrackingOptionsCommand | gps/gnss/GnssAdapter.cpp:1599-1643 | performs the update step; no answer for an unknown session, success exactly when the options were saved |
| TrackingProgram.GnssAdapter.StopTrackingCommand | gps/gnss/GnssAdapter.cpp:1685-1721 | performs the stop step; no answer for an unknown session, success exactly when it was erased |
| TrackingProgram.GnssAdapter.StopClientSessions | gps/gnss/GnssAdapter.cpp:1143-1157 | stops each session of the client once, keeps the others', and keeps of the client's only those the engine refused to stop |
| TrackingProgram.StopsShare | gps/gnss/GnssAdapter.cpp:1143-1157 | removing a client keeps the engine shared by the sessions left |
| TrackingProgram.GnssAdapter.RestartSessions | gps/gnss/GnssAdapter.cpp:1222-1245 | performs the restart step |
| Odcpi.ActiveHasTimer | gps/gnss/GnssAdapter.cpp:2557-2600 | in every run an active request has an active timer, which is armed for 10000 ms after the latest request or has an expiry on the way, unless the timer service refused it |
| Odcpi.UpgradeFindsTimer | gps/gnss/GnssAdapter.cpp:2575-2583 | an emergency upgrade never finds the timer inactive, so its plain start is dead |
| Odcpi.RefusedIsStuck | gps/gnss/GnssAdapter.h:55-58 | after a refused start nothing is sent until an upgrade |
| Odcpi.SendsLatest | gps/gnss/GnssAdapter.cpp:2557-2694 | each event sends at most one request: the latest one the modem started |
| OdcpiSends.ActiveIffWanted | gps/gnss/GnssAdapter.cpp:2557-2600 | over every run a request is active exactly when the latest of the starts and stops heard and of the restarts was a start, from the events alone |
| OdcpiSends.SendsExactly | gps/gnss/GnssAdapter.cpp:2557-2694 | over every run exactly what each event sends the framework, from the modem's words and the timer's history |
| OdcpiSends.HeardIsSent | gps/gnss/GnssAdapter.cpp:2587-2694 | a request heard is sent when an expiry is next handled, if nothing stopped it, in its latest form |
| OdcpiSends.StoppedIsNotSent | gps/gnss/GnssAdapter.cpp:2681-2694 | a stopped one is not, and the timer stands |
| Odcpi.TimerTracked | gps/gnss/GnssAdapter.h:55-66 | over every run the history of the timer's latest start tells what the timer does now, and a request is recent exactly until that start's deadline |
| Odcpi.SpacedIff | gps/gnss/GnssAdapter.cpp:2557-2694 | over every run, whatever the timer does, requests other than upgrades are 10000 ms apart exactly if no event was hasty: no expiry was handled, and no request came after one stopped the timer, before the latest start's deadline |
| Odcpi.RequestsAreSpaced | gps/gnss/GnssAdapter.cpp:2557-2694 | no event does, when every expiry is due and handled at once |
| Odcpi.RateBound | gps/gnss/GnssAdapter.h:50-77 | then over T ms at most 1 + T/10000 requests are not upgrades |
| Odcpi.ActiveIsServed | gps/gnss/GnssAdapter.cpp:2681-2694 | with a timer on time and its expiries handled at once, while it is active and was not refused the framework was asked within 10000 ms |
| Odcpi.TooSoonIff | gps/gnss/GnssAdapter.cpp:2567-2583 | with every expiry due and handled at once, the framework is asked too soon exactly by an upgrade while the timer is running |
| Odcpi.PlainTooSoonIff | gps/gnss/GnssAdapter.cpp:2557-2694 | a request that is no upgrade comes too soon exactly by a hasty event |
| Odcpi.LateTooSoonIff | gps/gnss/GnssAdapter.cpp:2681-2694 | if no expiry is early, exactly by one in which the latest start has not fired: the expiry was another's, or the start was refused |
| Odcpi.EarlyTooSoonIff | gps/gnss/GnssAdapter.cpp:2681-2694 | if every expiry is handled at once, exactly by one in which the latest start has fired, and so before its deadline |
| OdcpiRuns.LateHandlingRepeats | gps/gnss/GnssAdapter.cpp:2668-2694 | a run in which an emergency between a due expiry and its handling is sent twice at once |
| OdcpiRuns.EarlyExpiryRepeats | gps/gnss/GnssAdapter.h:63-66 | a run in which the expiry takes the timer an emergency has just restarted, with the same effect |
| OdcpiRuns.EarlyExpiriesAreNotBounded | gps/gnss/GnssAdapter.h:63-66 | for every n a run with n + 1 requests that are no upgrades within 10000 ms |
| OdcpiRuns.UpgradesAreNotBounded | gps/gnss/GnssAdapter.cpp:2575-2583 | for every n a run that sends n upgrades with no time passing, every expiry due and handled at once |
| OdcpiRuns.RefusedRun | gps/gnss/GnssAdapter.h:55-58 | a run that ends with an active request whose timer was refused |
| OdcpiProgram.OdcpiTimer.Restart | gps/gnss/GnssAdapter.h:63-66 | the flag is set, and the timer has a new full interval unless refused |
| OdcpiProgram.GnssAdapter.ReportOdcpiRequest | gps/gnss/GnssAdapter.cpp:2557-2600 | performs the start or stop report step |
| OdcpiProgram.GnssAdapter.OdcpiTimerExpire | gps/gnss/GnssAdapter.cpp:2681-2694 | performs the expiry step |
| OdcpiProgram.GnssAdapter.RestartSessions | gps/gnss/GnssAdapter.cpp:1226-1227 | clears the active request and leaves the timer |
| IpcFraming.NumberReadBack | gps/utils/LocIpc.cpp:123-125 | the printed length is read back exactly when no digit follows it |
| IpcFraming.FillChunks | gps/utils/LocIpc.cpp:122-131 | receiving the chunks of a message fills the string with it |
| IpcFraming.DeliversClean | gps/utils/LocIpc.cpp:100-138 | a clean message is delivered byte for byte in one call, whatever follows |
| IpcFraming.SpoilsUnclean | gps/utils/LocIpc.cpp:100-138 | an unclean message is not what is delivered first, whatever follows; a short one that looks like a header only if nothing follows |
| IpcFraming.HeaderTwice | gps/utils/LocIpc.cpp:117-136 | a header-like message that arrives once when sent twice |
| IpcFraming.RoundTrip | gps/utils/LocIpc.cpp:103-137 | from a fresh buffer a non-empty message is delivered as sent exactly when it is longer than 8192 bytes or begins with neither header nor abort text |
| IpcFraming.DeliversAll | gps/utils/LocIpc.cpp:100-138 | a run of clean messages is delivered in order, byte for byte, one call each, whatever follows; empty ones are not |
| IpcFraming.DeliversNextIff | gps/utils/LocIpc.cpp:100-138 | after any such run the next message arrives as sent exactly when it is clean too |
| IpcFraming.ArrivesIff | gps/utils/LocIpc.cpp:100-138 | a whole sequence arrives as sent exactly when each message is clean behind the one before, if no short header-like one comes before the last |
| IpcFraming.StaleDigitSpoils | gps/utils/LocIpc.cpp:122-125 | two messages of which the second is lost to a digit the first left in the buffer |
| IpcFraming.FramesAre | gps/utils/LocIpc.cpp:199-235 | the datagrams of a message: itself up to 8192 bytes, else the header with its length and then 8192 bytes each |
| IpcFraming.AbortStops | gps/utils/LocIpc.cpp:112-115 | a datagram that begins with the abort text ends the listening |
| IpcFraming.InterruptionStops | gps/utils/LocIpc.cpp:127-136 | an empty datagram among those of a long message ends the listening |
| IpcFraming.PartNotDelivered | gps/utils/LocIpc.cpp:127-136 | nothing is delivered of a clean long message of which only the first datagrams arrive |
| IpcProgram.LocIpc.SendData | gps/utils/LocIpc.cpp:199-235 | sends the frames up to the first the socket refuses, and tells whether all went |
| IpcProgram.LocIpc.ReceiveRest | gps/utils/LocIpc.cpp:122-131 | the receive loop fills the message or stops at an error or empty datagram |
| IpcProgram.LocIpc.ReceiveOne | gps/utils/LocIpc.cpp:103-138 | one turn of the listening loop delivers what the specification delivers first |
| IpcProgram.LocIpc.StartListeningBlocking | gps/utils/LocIpc.cpp:100-148 | delivers exactly what the specification delivers from the socket's datagrams |
| ReportHistory.ReportsAreLatest | gps/core/SystemStatus.cpp:1308-1332 | the report vector is always the last min(5, n) entries of the unbounded log |
| ReportHistory.NeighboursDiffer | gps/core/SystemStatus.cpp:1308-1323 | without defaults no two neighbouring entries are equal |
| ReportHistory.LastIsReportedNow | gps/core/SystemStatus.cpp:1311-1323 | the last entry's reported time is that of the last event |
| ReportHistory.UnchangedTouchesTime | gps/core/SystemStatus.cpp:1311-1315 | a report that changes nothing alters that time, and no other field or entry |
| ReportHistory.ChangedIsAppended | gps/core/SystemStatus.cpp:1317-1322 | any other report is the last entry afterwards, as collated, and the oldest of more than five goes |
| ReportHistory.DefaultIsAppended | gps/core/SystemStatus.cpp:1325-1332 | a default is the last entry afterwards, as it is |
| ReportHistory.LatestMask | gps/core/SystemStatus.h:485-502 | a network type is in the latest mask exactly when some report set it and none since cleared it |
| ReportProgram.History.SetIteminReport | gps/core/SystemStatus.cpp:1308-1323 | keeps the vector what the events make it, and tells whether the item was new |
| ReportProgram.History.SetDefaultIteminReport | gps/core/SystemStatus.cpp:1325-1332 | appends the default to the history whatever came before |
| ReportProgram.History.GetIteminReport | gps/core/SystemStatus.cpp:1334-1342 | the last entry of the full log, if any |
| ReportProgram.EventDataItemNotify | gps/core/SystemStatus.cpp:1468-1471 | the reported item's own mask becomes the latest mask |

## Left out

Assumptions of the timer model:

- Reading a delegate's client and stopping it is one step, although the read is not under the
  lock (gps/utils/LocTimer.cpp:530); so are a client's calls, and handling a Push or Remove up
  to setting the device, which is a step of its own. A delegate is deleted just before that
  step rather than just after it; nothing reads it in between.
- In `TimerProgram` a method runs without interruption; the interleavings are those of
  `TimerService`. Clients, delegates and shared locks are rows of tables keyed by identity, so
  use after deletion shows as a reference to a deleted row.
- The heap compares integer deadlines, as `Deadline` shows the ranking of timers to do within
  int range. Subtree sizes do not overflow.
- The CLOCK_MONOTONIC fallback and the container's lazy creation, beyond its failing.

Assumptions of the other parts:

- AGPS: the base state machine only. `DSStateMachine` may stay RELEASED with a subscriber when
  the call setup fails, and retries on a timer; the emergency PDN that selects it is off.
- AgpsRouting.OneLifePerRequest: assumes that the handle is requested at most once, since the
  manager may send a second request to the other machine.
- IpcFraming.ArrivesIff: leaves out sequences in which a short message that looks like a header
  is followed by others; what it swallows may make up for it, as `IpcFraming.HeaderTwice` shows.
- AGPS: APN and bearer are not modelled. Events for a machine that does not exist, which the program would dereference,
  must not be reported.
- Observer: each message is handled when it is sent, in order. A cached item counts as updated
  exactly when its value differs; `accepted` stands for the system status recording an item
  and its copy being created. Erasing through iterators is modelled by its set results.
- Observer: `turnOn`, `turnOff` and the backhaul counters.
- Tracking: a refused start or stop leaves the engine unchanged, and no ULP is present.
- Tracking.EngineIsShared: claims the interval only; with ties the mode may be another
  session's, because the program compares intervals and nothing else.
- Odcpi.RequestsAreSpaced: assumes that the timer never fires before its time and that its
  expiry is handled before anything else; the timer service promises neither, and `OdcpiRuns`
  has a run without the spacing for each.
- Odcpi.RateBound: assumes the same; with early expiries there is no bound
  (`OdcpiRuns.EarlyExpiriesAreNotBounded`).
- Odcpi.ActiveHasTimer: leaves out a timer that the timer service refused to start.
- ODCPI: the callback, once registered, stays.
- IPC: datagrams arrive whole and in order, and receiving fails once there are none left. A
  length beyond `size_t`, and the blanks and signs `sscanf` would skip, are not modelled; only
  messages that are not clean get there.
- History: item contents are opaque values; a 64-bit mask is the set of its bits.
- NI responses, request queues, configuration tables, NMEA parsing and the HIDL wrappers.
