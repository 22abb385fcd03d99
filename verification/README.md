# Verified model of rmw_iceoryx2

A Dafny model of the ROS 2 middleware layer that maps RMW onto iceoryx2: the wait set and `rmw_wait`,
the notification protocol around it, loaned messages, service and node names, and the choice between raw
copies and serialization. `dafny verify dfyconfig.toml` checks all of it.

## How it is organised

| file | models |
|---|---|
| `WaitSetModel.dfy` | the state of a wait set and every operation on it, as functions |
| `WaitSetInvariant.dfy` | what every operation and every run keeps; errors that cannot happen |
| `WaitSetMeaning.dfy`, `RmwWaitMeaning.dfy` | deduplication, the fold over events, one call and runs of calls |
| `LeftOvers.dfy` | calls after an error return: exactly when they can be trusted |
| `WaitSetAnswers.dfy` | exactly when mapping, waiting and a whole call succeed, and what they answer if not |
| `WaitSetClass.dfy`, `RmwWaitEntry.dfy` | the `WaitSet` object and `rmw_wait` with its loops, updating fields and the caller's arrays in place |
| `WakeUp.dfy`, `WakeUpLimits.dfy`, `WakeUpAfterErrors.dfy`, `WakeUpFailures.dfy` | publishers, one wait set and its readers as interleaved steps; where the no-lost-wake-up property ends; exactly which calls and which failures lose one |
| `RmwWaitProtocol.dfy`, `GuardConditionWakeUps.dfy`, `WakeUpMessages.dfy` | calls of `rmw_wait` as runs of those steps; what becomes of the triggers of guard conditions and of messages |
| `LoanModel.dfy`, `LoanLifecycle.dfy`, `SubscriberLifecycle.dfy`, `LoanAccounting.dfy` | loans on both sides, the fate of every loan and every received sample, the balance over the entry points |
| `EntryPoints.dfy` | what every entry point of a publisher and a subscription answers, and what the answer says |
| `PublisherProtocol.dfy` | runs of a publisher as runs of the wake-up protocol |
| `LoanObjects.dfy` | `SampleRegistry`, `Publisher`, `Subscriber` and their RMW handles as objects |
| `Introspection.dfy`, `Representation.dfy`, `Buffers.dfy` | the `is_pod` walk; messages through bytes, a bounded buffer, and back |
| `Names.dfy`, `NodeNames.dfy`, `NodeListing.dfy`, `Strings.dfy` | names, their parsers, the node list |
| `GuardConditions.dfy` | the id counter of a context and what it means for wait sets |

What iceoryx2 decides is a parameter: whether a listener can be created, which attachment fails, which
events are delivered and which notifications arrive during a wait, whether a drain, a send or a notification
succeeds, where a sample lies in memory. The only assumption about memory is that samples that are live at
the same time have different addresses.

Loops and objects of the source are methods and classes here, each proved equal to a function of the old
state; the properties are proved about those functions, over all inputs and all runs.

## What the proofs found

- **Readers that share a service lose wake-ups.** It is not enough that the service names in one `rmw_wait`
  array are distinct: two readers of one service that are waited for one after the other on the same wait set
  share a listener, and the call for one drains the events of the other. Over runs whose failures are harmless,
  `WakeUpLimits.WakeUpsAreNeverLostExactly` shows that one reader per service is exactly what is needed.
- **An error return from `rmw_wait` can break the next call even if nothing was drained.** The mappings of the
  failed call survive, and `map_stored_listener` keeps their old indices (`RmwWaitMeaning.StaleMappingMisreports`).
  `LeftOvers.CallsAreTrustworthyExactly` gives the exact condition: the next call can be trusted, whatever events
  it meets, if and only if each left-over mapping leads from its listener to the first place of that listener's
  name in the array now passed. So retrying with the same arrays keeps reports trustworthy, however often and
  wherever calls fail (`LeftOvers.RetryingIsSafe`). It does not bring back a wake-up that the failed call drained:
  after any run, harmful failures included, the next call is safe if and only if no wake-up is lost yet and each
  left-over mapping leads to some reader of its listener's service (`WakeUpAfterErrors.EnteringIsSafeExactly`).
- **Failed notifications, failed drains and error returns** can lose a wake-up; `WakeUpFailures.StepsAreSafeExactly`
  says for every step, in terms of the world before it, exactly when it does.
- **Both sides have to choose the same representation**: otherwise a message can arrive as another one although
  both representations round-trip (`Representation.DifferentRepresentationsGarble`).
- **Node names** survive printing and parsing exactly when the name has no slash and name and namespace are not
  both empty (`NodeNames.NodeNameRoundTrip`).
- **Wide strings** are not recognised by `is_pod`; on every accepted type the answer is wrong exactly if there is
  one (`Introspection.PodIsSelfContainedWithoutWideStrings`).
- **A failed send consumes the loan**: the sample leaves the registry before it is sent.
- On `RMW_RET_TIMEOUT`, `rmw_wait` leaves the subscription and guard-condition arrays as they were.

## Model

| member | source | states |
|---|---|---|
| `WaitSetInvariant.EveryRunKeepsInv` | rmw_iceoryx2_cxx/include/rmw_iceoryx2_cxx/impl/runtime/waitset.hpp:273-282 | over every run of map, wait, unmap and `rmw_wait`, failures included: names unique per table, mappings in range and never two for one listener, tables grow only at their end |
| `WaitSetInvariant.StorageIndexIsStable` | rmw_iceoryx2_cxx/include/rmw_iceoryx2_cxx/impl/runtime/waitset.hpp:273-279 | a service name keeps its storage index through every later run |
| `WaitSetInvariant.FindOrCreateRefinesIndexMap` | rmw_iceoryx2_cxx/include/rmw_iceoryx2_cxx/impl/runtime/waitset.hpp:287-321 | find-or-create is find-or-insert on the map from names to indices; a new listener has nothing pending |
| `WaitSetInvariant.AttachingFindsEveryListener` | rmw_iceoryx2_cxx/src/impl/runtime/waitset.cpp:168-181 | attaching yields one id per mapping in order, or fails only where iceoryx2 fails |
| `WaitSetInvariant.InvalidStorageIndexIsUnreachable` | rmw_iceoryx2_cxx/include/rmw_iceoryx2_cxx/impl/runtime/waitset.hpp:344-360 | after every run, neither attaching nor processing a trigger in the middle of a wait can meet an invalid storage index |
| `WaitSetInvariant.NoDeadWait` | rmw_iceoryx2_cxx/src/impl/runtime/waitset.cpp:79-105 | a thread that goes to sleep has attached exactly the timer, if there is one, and every mapped listener, and that is never nothing |
| `WaitSetMeaning.MappingKeepsFirstOccurrences` | rmw_iceoryx2_cxx/src/impl/runtime/waitset.cpp:31-67 | mapping a list of names maps exactly the first occurrence of each, in order, and leaves the other type alone |
| `WaitSetMeaning.MappingGivesOwners` | rmw_iceoryx2_cxx/src/impl/runtime/waitset.cpp:57-67 | from any wait set: a name is reported under the index of a left-over mapping, else of its first occurrence |
| `WaitSetMeaning.EveryEntityKeepsItsIndex` | rmw_iceoryx2_cxx/src/rmw/waitset.cpp:133-163 | every entity of the array is reported under its own index if and only if names are distinct and no left-over mapping claims one for another index |
| `WaitSetMeaning.WaitReportsDrainedEvents` | rmw_iceoryx2_cxx/src/impl/runtime/waitset.cpp:108-145 | the result of a wait is the in-order list of mapped listeners whose events precede the timeout event and are drained, for every sequence of events |
| `WaitSetMeaning.BeforeTimeoutIsTheLongestPrefix` | rmw_iceoryx2_cxx/src/impl/runtime/waitset.cpp:109-112 | the handled events are the longest prefix without an event of this wait's own timer; without a timer they are all events |
| `WaitSetMeaning.ListenersDoNotInterfere` | rmw_iceoryx2_cxx/src/impl/runtime/waitset.cpp:198-244 | what is pending at a listener after a wait depends only on its own notifications and events |
| `WaitSetMeaning.ReportedListenersAreEmpty` | rmw_iceoryx2_cxx/src/impl/runtime/waitset.cpp:114-129 | in the middle of any sequence of occurrences, a listener has nothing pending at the moment its event is reported |
| `WaitSetMeaning.UnprocessedListenersKeepTheirEvents` | rmw_iceoryx2_cxx/src/impl/runtime/waitset.cpp:114-135 | after every wait, a listener without a processed event has all its pending events and the new ones |
| `WaitSetMeaning.EventsAreKeptOrReported` | rmw_iceoryx2_cxx/src/impl/runtime/waitset.cpp:203-211 | after every wait in which no drain fails, a listener that had or got an event still has one, or is among the reported |
| `WaitSetAnswers.CallSucceedsExactly` | rmw_iceoryx2_cxx/src/rmw/waitset.cpp:133-184 | from any valid wait set: OK or TIMEOUT if and only if every listener can be had and either there is nothing to wait for and no time for it, or everything attaches and iceoryx2 completes the wait; OK exactly if something is triggered; only success unmaps |
| `WaitSetAnswers.WaitAnswersExactly` | rmw_iceoryx2_cxx/src/impl/runtime/waitset.cpp:74-146 | for every wait: which result and which error if and only if which cause; an expired timeout without events is a success with no reports; what happens during a sleep stays even if it fails, and a wait that does not sleep changes nothing |
| `WaitSetAnswers.MappingSucceedsExactly` | rmw_iceoryx2_cxx/src/impl/runtime/waitset.cpp:31-55 | an array is mapped if and only if each listener is known, can be created, or was created for an earlier entity |
| `WaitSetAnswers.MappingStopsAtFirstFailure` | rmw_iceoryx2_cxx/src/rmw/waitset.cpp:133-163 | mapping leaves exactly what was mapped before the first entity whose listener cannot be had |
| `WaitSetAnswers.GuardConditionsComeFirst` | rmw_iceoryx2_cxx/src/rmw/waitset.cpp:133-163 | if a guard condition cannot be mapped, those before it stay mapped and nothing was done for subscribers |
| `WaitSetAnswers.SubscribersComeSecond` | rmw_iceoryx2_cxx/src/rmw/waitset.cpp:133-163 | if a subscriber cannot be mapped, all guard conditions and the subscribers before it stay mapped |
| `WaitSetAnswers.CallsLeavePendingExactly` | rmw_iceoryx2_cxx/src/rmw/waitset.cpp:133-184 | what a call leaves pending at every listener, whatever it returns: what was there, changed by that listener's own notifications and events before the timeout if the call slept |
| `WaitSetAnswers.MapFailsExactly` | rmw_iceoryx2_cxx/src/impl/runtime/waitset.cpp:31-55 | which error if and only if which creation failed, and then nothing changed |
| `WaitSetAnswers.TriggerAnswersExactly` | rmw_iceoryx2_cxx/src/impl/runtime/waitset.cpp:198-244 | which answer of a processed trigger if and only if which cause |
| `WaitSetAnswers.WaitsNeverAddEvents` | rmw_iceoryx2_cxx/src/impl/runtime/waitset.cpp:203-211 | after any occurrences a listener has at most what it had and got |
| `RmwWaitMeaning.TriggeredMeansFirstAndDrained` | rmw_iceoryx2_cxx/src/rmw/waitset.cpp:133-215 | called with nothing mapped: index i is triggered if and only if it is the first with its name and its event came before the timeout and was drained |
| `RmwWaitMeaning.ReportedIndicesAreFresh` | rmw_iceoryx2_cxx/src/rmw/waitset.cpp:171-198 | in runs whose earlier calls returned OK or TIMEOUT, nothing is mapped at entry and every reported index lies in the current array |
| `RmwWaitMeaning.StaleMappingMisreports` | rmw_iceoryx2_cxx/src/rmw/waitset.cpp:157-178 | after an error return this fails: a concrete pair of calls reports index 1 of a one-element array |
| `LeftOvers.CallsAreTrustworthyExactly` | rmw_iceoryx2_cxx/src/rmw/waitset.cpp:133-198 | from any valid wait set: for all events, "triggered iff first with its name and drained in time" holds if and only if every left-over mapping leads to the first place of its listener's name in the current array |
| `LeftOvers.FittingCallIsTrustworthy` | rmw_iceoryx2_cxx/src/rmw/waitset.cpp:133-198 | the sufficient half, call by call and for both arrays |
| `LeftOvers.RetryingIsSafe` | rmw_iceoryx2_cxx/src/rmw/waitset.cpp:141-178 | in every run of calls with the same arrays, whatever fails in them, each call that returns OK or TIMEOUT can be trusted |
| `WaitSetClass.WaitSet.GetStorageIndex` | rmw_iceoryx2_cxx/include/rmw_iceoryx2_cxx/impl/runtime/waitset.hpp:287-321 | the search loop and append compute the specification function |
| `WaitSetClass.WaitSet.MapStoredListener` | rmw_iceoryx2_cxx/src/impl/runtime/waitset.cpp:57-67 | the search loop appends a mapping unless the listener has one |
| `WaitSetClass.WaitSet.Map` | rmw_iceoryx2_cxx/src/impl/runtime/waitset.cpp:31-55 | mapping one entity, errors included |
| `WaitSetClass.WaitSet.UnmapAll` | rmw_iceoryx2_cxx/src/impl/runtime/waitset.cpp:69-72 | clears the mapping and keeps the listeners |
| `WaitSetClass.WaitSet.AttachMappedListener` | rmw_iceoryx2_cxx/include/rmw_iceoryx2_cxx/impl/runtime/waitset.hpp:344-360 | attaches one stored listener; both error cases attach nothing |
| `WaitSetClass.WaitSet.AttachMappedListeners` | rmw_iceoryx2_cxx/src/impl/runtime/waitset.cpp:168-181 | attaches every mapping in order or stops at the first failure |
| `WaitSetClass.WaitSet.ProcessTrigger` | rmw_iceoryx2_cxx/src/impl/runtime/waitset.cpp:198-244 | drains one stored listener in place |
| `WaitSetClass.WaitSet.OnEvent` | rmw_iceoryx2_cxx/src/impl/runtime/waitset.cpp:108-135 | the callback: stop on the timeout, otherwise find the attachment, drain and report |
| `WaitSetClass.WaitSet.WaitAndProcessOnce` | rmw_iceoryx2_cxx/src/impl/runtime/waitset.cpp:137-145 | the callbacks of one wait; its precondition is that something is attached |
| `WaitSetClass.WaitSet.Wait` | rmw_iceoryx2_cxx/src/impl/runtime/waitset.cpp:74-166 | computes the specification function, and nothing is attached on any exit path |
| `RmwWaitEntry.RmwWait` | rmw_iceoryx2_cxx/src/rmw/waitset.cpp:86-235 | return code, wait-set state and the content of all five arrays, for every path; subscription and guard-condition arrays are untouched unless it returns OK |
| `RmwWaitEntry.KeptSlotsMeanReadiness` | rmw_iceoryx2_cxx/src/rmw/waitset.cpp:181-215 | on OK a slot is kept if and only if it is the first with its name and its event was drained in time; otherwise it is null |
| `WakeUp.HarmlessStepKeepsGood` | rmw_iceoryx2_cxx/src/impl/runtime/waitset.cpp:108-135 | every step of publishers, the waiting thread and readers that succeeds or fails harmlessly keeps the protocol invariant |
| `WakeUp.WakeUpsAreNotLost` | rmw_iceoryx2_cxx/src/impl/runtime/publisher.cpp:134-178 | in every interleaving, with failed creations, drains that leave an event, superfluous notifications that fail, and error returns without drained readers: messages for a mapped reader are known to a publisher about to notify, its listener, the wait about to report, or the reader |
| `WakeUp.SleeperIsWoken` | rmw_iceoryx2_cxx/src/impl/runtime/waitset.cpp:102-145 | a thread asleep for such a reader has its listener attached, with an event pending or about to be reported |
| `WakeUpLimits.WakeUpsAreNeverLostExactly` | rmw_iceoryx2_cxx/include/rmw_iceoryx2_cxx/impl/runtime/waitset.hpp:294-320 | over harmless runs no wake-up is ever lost if and only if no two readers have the same service |
| `WakeUpLimits.SharedServiceLosesWakeUp` | rmw_iceoryx2_cxx/src/impl/runtime/waitset.cpp:44-67 | for any two readers of one service, a run that loses a wake-up |
| `WakeUpLimits.EachFailureCanLoseAWakeUp` | rmw_iceoryx2_cxx/src/impl/runtime/waitset.cpp:118-143 | a failed notification, a failed drain and an error return after a drain each lose one |
| `WakeUpFailures.StepsAreSafeExactly` | rmw_iceoryx2_cxx/src/impl/runtime/waitset.cpp:114-143 | in every world that tolerated steps reach: after any possible step - failed notification, failed drain, error return, or any other - no harmless run loses a wake-up if and only if the step is tolerated in the world before it |
| `WakeUpFailures.ToleratedRunsLoseNothing` | rmw_iceoryx2_cxx/src/impl/runtime/publisher.cpp:145-155 | no wake-up is lost in any run of tolerated steps |
| `WakeUpFailures.EachFailureIsSometimesIntolerable` | rmw_iceoryx2_cxx/src/impl/runtime/waitset.cpp:118-143 | for every reader, each of the three failures is reached in a world that does not tolerate it |
| `WakeUpAfterErrors.EnteringIsSafeExactly` | rmw_iceoryx2_cxx/src/rmw/waitset.cpp:141-178 | after any run, harmful failures included: no harmless continuation of a call with these readers loses a wake-up if and only if none is lost yet and each left-over mapping leads to a reader of its listener's service |
| `WakeUpAfterErrors.ErrorWithoutDrainLoses` | rmw_iceoryx2_cxx/src/rmw/waitset.cpp:171-178 | for any two readers of different services: an error return that drained nothing, and then a call for the other reader, can lose a wake-up |
| `RmwWaitProtocol.CallsAreProtocolRuns` | rmw_iceoryx2_cxx/src/rmw/waitset.cpp:133-215 | every call of `rmw_wait`, from every valid wait set, is a run of protocol steps with the same wait set in the end; it returns out of a world in which exactly what it triggers is about to be reported |
| `WakeUpMessages.MessagesAreConserved` | rmw_iceoryx2_cxx/src/impl/runtime/subscriber.cpp:78-123 | over every run, as long as there is room, a reader's buffer holds what it held and was sent, in order, less as many of the oldest as were taken |
| `GuardConditionWakeUps.TriggersAreKeptExactly` | rmw_iceoryx2_cxx/src/impl/runtime/waitset.cpp:114-143 | after any step a trigger is still pending or about to be reported if and only if the step neither forgets it (two failures) nor reports the last of it |
| `GuardConditionWakeUps.TriggersAreNotLost` | rmw_iceoryx2_cxx/src/impl/runtime/guard_condition.cpp:62-72 | after any run, once a guard condition has a listener, each trigger is pending, about to be reported or reported since, unless one of the two failures forgets it |
| `LoanLifecycle.EveryLoanHasOneFate` | rmw_iceoryx2_cxx/src/impl/runtime/publisher.cpp:106-156 | over every run each loan is exactly one of outstanding, returned, published, dropped; published ones are sent once; keys are payload addresses |
| `LoanLifecycle.ConsumedPointersAreRefused` | rmw_iceoryx2_cxx/src/impl/runtime/publisher.cpp:121-143 | a returned or published pointer is refused with INVALID_PAYLOAD and no effect until its address is granted again (`OnlyBadPointersAreRefused`: and no other pointer is) |
| `LoanLifecycle.NotificationsFollowSends` | rmw_iceoryx2_cxx/src/impl/runtime/publisher.cpp:134-178 | over every run each notification comes directly after the send it announces, and each payload is sent once |
| `PublisherProtocol.PublisherRunsAreProtocolRuns` | rmw_iceoryx2_cxx/src/impl/runtime/publisher.cpp:134-178 | from every world, the effects of any run of a publisher are those of protocol steps, all possible, that leave nothing in flight and are harmless unless a notification fails |
| `SubscriberLifecycle.EverySampleHasOneFate` | rmw_iceoryx2_cxx/src/rmw/subscription.cpp:134-370 | over every run of the entry points, each received sample is exactly one of outstanding, copied out and given back; keys are payload addresses |
| `SubscriberLifecycle.ReturnedPointersAreRefused` | rmw_iceoryx2_cxx/src/impl/runtime/subscriber.cpp:125-136 | a returned pointer is refused with no effect until its address is received again |
| `LoanAccounting.PublisherLoansBalance` | rmw_iceoryx2_cxx/src/rmw/publisher.cpp:134-289 | outstanding loans equal borrows less releases plus failed serializations, over every run (`PublishIsNeutral`: `rmw_publish` leaves the registry as it was unless serialization fails) |
| `LoanAccounting.SubscriberLoansBalance` | rmw_iceoryx2_cxx/src/rmw/subscription.cpp:134-370 | outstanding loans equal loans taken less returned plus failed takes, over every run and for every deserializer (`TakeIsNeutral`, `TakeSerializedIsNeutral`: when exactly a take leaves its loan behind) |
| `EntryPoints.PublishIsNotified` | rmw_iceoryx2_cxx/src/rmw/publisher.cpp:134-191 | on either path, OK if and only if the message went out and was announced; with the payload and the loan that were sent |
| `EntryPoints.CopyIsNotified` | rmw_iceoryx2_cxx/src/impl/runtime/publisher.cpp:158-178 | publishing a copy: each outcome if and only if others have seen send and notification, the send only, or nothing |
| `EntryPoints.LoanIsNotified` | rmw_iceoryx2_cxx/src/impl/runtime/publisher.cpp:134-156 | the same for publishing a loan, and INVALID_PAYLOAD if and only if the pointer is not outstanding |
| `EntryPoints.BorrowGivesNewestLoan` | rmw_iceoryx2_cxx/src/rmw/publisher.cpp:193-230 | each return code if and only if its cause; the pointer is the key of the newest loan, which holds what was granted |
| `EntryPoints.PublishLoanedAnswers` | rmw_iceoryx2_cxx/src/rmw/publisher.cpp:263-289 | OK if and only if the pointer was outstanding and its message went out and was announced |
| `EntryPoints.ReturnAnswers` | rmw_iceoryx2_cxx/src/rmw/publisher.cpp:232-261 | each return code if and only if its cause; a return sends nothing |
| `EntryPoints.TakeAnswers` | rmw_iceoryx2_cxx/src/rmw/subscription.cpp:134-197 | the flag says if and only if a message was there; each return code if and only if its cause; OK hands over the oldest message exactly if the flag is set |
| `EntryPoints.TakeLoanedAnswers` | rmw_iceoryx2_cxx/src/rmw/subscription.cpp:215-266 | the same for loans; the pointer is the key of the newest loan, which holds the oldest message |
| `EntryPoints.TakeSerializedAnswers` | rmw_iceoryx2_cxx/src/rmw/subscription.cpp:318-370 | the same for serialized messages |
| `EntryPoints.ReturnToSubscriptionAnswers` | rmw_iceoryx2_cxx/src/rmw/subscription.cpp:285-316 | each return code if and only if its cause |
| `EntryPoints.FlagsAccountForTheBuffer` | rmw_iceoryx2_cxx/src/rmw/subscription.cpp:134-370 | over every run of the entry points, the buffer holds what was there and arrived, less one for each take whose flag was set |
| `LoanObjects.SampleRegistry.Store` | rmw_iceoryx2_cxx/include/rmw_iceoryx2_cxx/impl/runtime/sample_registry.hpp:49-55 | stores under the payload address without overwriting |
| `LoanObjects.SampleRegistry.Retrieve` | rmw_iceoryx2_cxx/include/rmw_iceoryx2_cxx/impl/runtime/sample_registry.hpp:60-68 | the stored sample, if any |
| `LoanObjects.SampleRegistry.Release` | rmw_iceoryx2_cxx/include/rmw_iceoryx2_cxx/impl/runtime/sample_registry.hpp:73-85 | removes and gives the stored sample, if any |
| `LoanObjects.RmwPublisher.constructor` | rmw_iceoryx2_cxx/src/rmw/publisher.cpp:68-74 | loaning is allowed exactly for types the walk accepts |
| `LoanObjects.RmwPublisher.Publish` | rmw_iceoryx2_cxx/src/rmw/publisher.cpp:134-191 | copies exactly the message size, or loans, serializes and publishes |
| `LoanObjects.Subscriber.TakeCopy` | rmw_iceoryx2_cxx/src/impl/runtime/subscriber.cpp:78-98 | copies exactly the received bytes to the front of the destination |
| `LoanObjects.RmwSubscription.constructor` | rmw_iceoryx2_cxx/src/rmw/subscription.cpp:68-74 | loaning is allowed exactly for types the walk accepts |
| `LoanObjects.RmwSubscription.Take` | rmw_iceoryx2_cxx/src/rmw/subscription.cpp:134-197 | return code, taken flag, message and new state of a take |
| `Introspection.IsPod` | rmw_iceoryx2_cxx/src/impl/message/introspection.cpp:78-98 | the recursive walk with its loop and early exits terminates and computes the answer |
| `Introspection.PodMeansInlineThroughout` | rmw_iceoryx2_cxx/src/impl/message/introspection.cpp:62-98 | accepted if and only if, along every path of nested members, no dynamic array or string and no missing description |
| `Introspection.PodIsSelfContainedWithoutWideStrings` | rmw_iceoryx2_cxx/src/impl/message/introspection.cpp:74-98 | with self-contained defined by where each kind of member keeps its content: self-contained if and only if accepted and without wide strings |
| `Introspection.WideStringIsAccepted` | rmw_iceoryx2_cxx/src/impl/message/introspection.cpp:74-76 | a concrete type that is accepted and is not self-contained |
| `Introspection.PodTypeSupportMeansInline` | rmw_iceoryx2_cxx/src/impl/message/introspection.cpp:100-125 | a type support is accepted if and only if it has a C++ description that is inline at every depth, and then raw copies have the size of that description |
| `Introspection.IsPodTypeSupport` | rmw_iceoryx2_cxx/src/impl/message/introspection.cpp:100-107 | only the C++ introspection is asked |
| `Representation.SameTypeSupportHandsOnMessages` | rmw_iceoryx2_cxx/src/rmw/publisher.cpp:154-188 | with one type support on both sides, every run of `rmw_publish`, `rmw_take` and the loan calls hands on the messages that a byte-free specification says; only the representation in use has to round-trip |
| `Representation.DifferentRepresentationsGarble` | rmw_iceoryx2_cxx/src/rmw/subscription.cpp:68-74 | if the sides choose differently, a codec that round-trips in both representations hands on a wrong message, whichever side copies |
| `Representation.UnboundedTypesCanRoundTrip` | rmw_iceoryx2_cxx/src/rmw/publisher.cpp:166-188 | what is asked of serialization can be met by a type with infinitely many messages |
| `Representation.RawCopiesHaveMessageSize` | rmw_iceoryx2_cxx/src/impl/runtime/subscriber.cpp:90-94 | over every run of a self-contained type: payloads sent, loans under construction and the next copy taken have exactly the message size |
| `Representation.TakenInOrder` | rmw_iceoryx2_cxx/src/rmw/subscription.cpp:156-193 | over every run, the messages an application gets are sent messages in order; none is skipped if and only if at most a bufferful is untaken at any time, and then they are the first ones sent |
| `Names.ServiceNamesAreInjective` | rmw_iceoryx2_cxx/src/impl/common/names.cpp:17-37 | a name determines its entity: injective in every argument, no two kinds share a name |
| `Names.NamesAreSpelled` | rmw_iceoryx2_cxx/src/impl/common/names.cpp:17-37 | how names of contexts, guard conditions and topics are spelled |
| `Names.NodeNamesAreSpelled` | rmw_iceoryx2_cxx/src/impl/common/names.cpp:21-28 | how a node's name is spelled; a null namespace and an empty one give the same name, without a separator |
| `NodeNames.ParsesExactly` | rmw_iceoryx2_cxx/src/rmw/graph.cpp:63-90 | what the node parser makes of any string: accepted if and only if it has the prefix and a node marker with something behind the first one, which then reads as namespace, slash and name |
| `NodeNames.NodeNameRoundTrip` | rmw_iceoryx2_cxx/src/rmw/graph.cpp:63-90 | printing and parsing a node gives it back if and only if the name has no slash and not both parts are empty |
| `NodeNames.OnlyNodesParseAsNodes` | rmw_iceoryx2_cxx/src/rmw/graph.cpp:63-75 | context, guard-condition and topic names are rejected by the node parser |
| `NodeNames.OnlyTopicsParseAsTopics` | rmw_iceoryx2_cxx/src/rmw/graph.cpp:120-135 | what the topic parser makes of every name of every kind (`TopicNameRoundTrip`: it gives back exactly the non-empty topics) |
| `NodeListing.BeforeIsStrictTotalOrder` | rmw_iceoryx2_cxx/src/rmw/graph.cpp:56-61 | irreflexive, transitive and total |
| `NodeListing.BeforeIsLexicographic` | rmw_iceoryx2_cxx/src/rmw/graph.cpp:56-61 | namespaces decide, then names, each by the first character that differs or by being a proper prefix |
| `NodeListing.ListedNodesArePrintedNodes` | rmw_iceoryx2_cxx/src/rmw/graph.cpp:156-174 | from printing to listing: a list of printed names contributes exactly the alive, readable nodes, each as its own namespace and name, and nothing for other entities |
| `NodeListing.CollectNodeNames` | rmw_iceoryx2_cxx/src/rmw/graph.cpp:156-174 | the collected set is sorted and holds exactly the parsed names of alive nodes |
| `NodeListing.GetNodeNames` | rmw_iceoryx2_cxx/src/rmw/graph.cpp:202-248 | each return code if and only if its cause; on OK the arrays have equal length, strictly increase as pairs, and hold exactly the parsed alive names - the nodes that were printed, if the listed names are printed ones |
| `NodeListing.SortedNamesAreUnique` | rmw_iceoryx2_cxx/src/rmw/graph.cpp:214-245 | the answer does not depend on listing order or duplicates |
| `GuardConditions.Context.GenerateGuardConditionId` | rmw_iceoryx2_cxx/src/impl/runtime/context.cpp:35-37 | post-increment modulo 2^32; the counter is that of the number of ids generated so far |
| `GuardConditions.GuardCondition.constructor` | rmw_iceoryx2_cxx/src/impl/runtime/guard_condition.cpp:21-23 | takes the next id and is named after its place among all creations of the context |
| `GuardConditions.GuardConditionsAliasExactly` | rmw_iceoryx2_cxx/src/impl/runtime/context.cpp:35-37 | two guard conditions of a context share a name if and only if their creations are a multiple of 2^32 apart |
| `GuardConditions.GuardConditionsShareListenersExactly` | rmw_iceoryx2_cxx/include/rmw_iceoryx2_cxx/impl/runtime/waitset.hpp:287-321 | in every valid wait set that knows both, they share a storage index if and only if their creations are a multiple of 2^32 apart |
| `GuardConditions.GuardConditionsAreReportedApart` | rmw_iceoryx2_cxx/src/impl/runtime/guard_condition.cpp:21-23 | mapped into any valid wait set, guard conditions are each reported under their own index if and only if no two creations are a multiple of 2^32 apart and no left-over mapping claims one for another index |

The remaining methods of `Publisher`, `RmwPublisher`, `Subscriber` and `RmwSubscription` in `LoanObjects.dfy` update
their object in place and are each proved equal to the corresponding function of `LoanModel.dfy`, keeping every registry key the payload address of its sample; the run theorems above are about those functions.

## Left out

- iceoryx2 itself: shared memory, service builders and real listeners; a listener is the number of its undrained events, and every call may succeed or fail.
- Real-time durations: a timeout is absent, zero or positive, and the timeout event may come anywhere among the events.
- FastCDR and the loading of type supports: the serializer is a pair of functions; that it round-trips is a hypothesis of the theorems about representation only.
- Entry points that return UNSUPPORTED, QoS, logging, GID comparison, feature flags, `rmw_publish_serialized_message` beyond its `publish_copy`: nothing further to prove.
- Null, identifier and zero-initialisation checks other than the null entries in the arrays of `rmw_wait`; init, shutdown, allocation and destruction of RMW handles.
- `collect_topic_names_and_types`: it dereferences the result of the topic parser without looking at it, so only the parser is modelled.
- Descriptor identity: an attachment id names the listener it was made for; two listeners never have the same id.
- `WakeUp.WakeUpsAreNotLost`: one wait set, entered by one thread at a time; a reader counts as informed from its first mapping or a report until it next finds its buffer empty, so a reader that takes one message per wake-up and then forgets can leave messages behind.
- `WakeUp.HarmlessStepKeepsGood`: guard conditions may be mapped at any moment of the mapping phase and callbacks may follow a timeout event, which allows more behaviour than the code.
- `PublisherProtocol.PublisherRunsAreProtocolRuns`: one publisher's steps in a row; that other steps may come between is the protocol's own freedom.
- `Representation.SameTypeSupportHandsOnMessages`: one publisher and one subscription.
- `NodeListing.GetNodeNames`: any allocation failure is reported as one code, where the code converts the one it gets.
