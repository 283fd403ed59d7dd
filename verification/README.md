# Verification of the Mullvad VPN app's concurrent core

This project models the parts of the app that are hard to get right by reading: the actors through
which the daemon reaches the API, and the iOS operation, logging and duration code under the packet
tunnel. It states what they keep in every run and proves it with Dafny 4.11. `dafny verify
dfyconfig.toml` checks everything.

## What is modelled

Each component is a module. Its state is a datatype, its handlers are functions on that state, and a
run is any sequence of events in any order; an event that cannot happen changes nothing. The theorems
quantify over all runs. Where the source updates fields in place, a class has the same fields, its
methods have the same branches and loops, and their contracts tie the new state to the functions that
the theorems are about.

- `AccessMode` is the access method selector: the cyclic search for the next enabled method, the
  selector's commands, and the announcements to the REST client.
- `RequestService` is the REST request service with its wrapping connection mode generation.
- `ConnectionMode` and `Connector` are the HTTPS connector: parsing a mode, the request task that
  stores it and closes the streams, and the connection attempts and `poll_ready` that run beside it.
  Each locked section, each close and the notification are separate steps.
- `ApiStack` joins selector, service and connector by their queues.
- `TokenStore` is the access token store with its in-flight fetches and waiting callers.
- `Availability` is the API availability state, its setters and the tasks that wait for a condition.
- `RelayList` regroups the server's relay list by country and city.
- `AsyncOperation` and `OperationOutcome` are the life cycle of an iOS operation and what decides its
  outcome; `Exclusivity` is the exclusivity manager of the operation queue.
- `LogFile` is the size-limited log file with its retry buffer.
- `Saturating` is saturating integer arithmetic and the durations built on it.

## Where a promise does not hold as stated

The code is modelled as it is. Where a promise of its comments or names fails, a lemma gives an input
or a run, and another one the exact condition.

- The selector's update means to go on with the successor of a removed method; at position 0 the
  decrement saturates and method 0 is skipped (`RemovalSkipsFirstMethod`,
  `RemovalKeepsSuccessorACandidate`).
- The generation counter wraps, after which a very old request rotates again
  (`StaleRequestRotatesAfterWrap`, `FailureRotatesIff`).
- A connection that completes although its abort notice fired registers a stream of the old mode that
  stays open (`StaleStreamCanSurviveSwitch`, `OpenStreamUsesStoredModeIff`).
- An invalidation does not stop a fetch that has already completed (`CompletedFetchOutlivesInvalidation`,
  `InvalidationIsFinalIff`), and such races allow any number of outstanding fetches (`RacesPileUp`;
  `SingleFlight` counts them exactly).
- A waiting task may return success for a state that has passed (`SuccessCanBeStale`,
  `SuccessIsCurrentIff`).
- `finish` between `start` and `_start` makes a finished operation execute (`EarlyFinishRevives`,
  `StateIncreasesUnless`). Before `_start` has run it may also have observers told of the finish first or
  twice, unless the operation is started and cancelled (`UnguardedFinishIsTold`,
  `ToldProperlyIffGuarded`, `ObserverTraces`). Before `start` it makes
  `main` run without its conditions (`EarlyFinishRunsMainUnsatisfied`, `MainRunsOnlyIfSatisfied`).
- A cancelled operation that leaves the queue before its dependencies finish breaks the chain of
  exclusivity (`OvertakingBreaksExclusion`, `ExclusiveForeverIffOrdered`).
- The newline search recurses without progress at the end of the file, so that truncating may never
  return; the model gives that an outcome of its own (`SearchHangsIff`, `LargeRecordHangs`,
  `WholeLinesNeverHang`). A chunk above half the limit may leave the file above the limit
  (`WriteStaysBelowLimitIff`). The header argument of `openFileWithHeader` is ignored by the source: the
  configured header is written when the file is reopened too.
- Opening the log does not truncate it and writes from its start, so that bytes of an existing file, or of
  the log before a failure, stay behind the new records and later between them (`OldBytesSurvive`,
  `OnlyLatestIff`, `FileHoldsRecords`, `ReopenedHoldsBuffer`).
- A retry buffer above the size limit is refused whole at every reopening, so that the log never opens
  again (`OversizedBufferHappens`, `WaitsForeverIff`).
- Saturating addition of unsigned integers returns the minimum on overflow (`AdditionClampsIff`,
  `UnsignedCounterRestarts`), unlike its documentation.

## Assumptions

- A resolver's answer to the selector is an arbitrary input of each command, and so is what the clock
  says of a stored token, what a fetch returns, and where input and output fail.
- `tokio::sync::Notify::notify_waiters` wakes exactly the notices created before it. The broadcast
  channel loses messages only for a receiver that lags by more than the capacity; the theorems about it
  hold for every capacity.
- iOS dispatch queues are serial. Foundation starts an operation only when it is ready, and may flush a
  cancelled one at any time.
- Lowercasing is any function on strings that treats the parts around a dash separately and adds no
  dash (`RespectsDashes`); `AsciiLowerRespectsDashes` shows that ASCII lowercasing is one.
- The counter's modulus, the integer widths, the log limits and the channel capacity are parameters.

## Model

| member | source | states |
|---|---|---|
| `AccessMode.FindNextActiveSpec` | mullvad-api/src/access_mode.rs:418-432 | the search returns the first enabled method at or cyclically after the start, and Direct exactly when no method is enabled |
| `AccessMode.EnabledInSpec` | mullvad-api/src/access_mode.rs:418-432 | the reference order used below lists exactly the enabled positions, each once, ascending |
| `AccessMode.RotationShiftsOrder` | mullvad-api/src/access_mode.rs:359-378 | one rotation moves the head of the cyclic order of enabled methods to its end |
| `AccessMode.RoundRobin` | mullvad-api/src/access_mode.rs:359-378 | with m enabled methods, m rotations from any position visit the enabled methods in cyclic order, each exactly once |
| `AccessMode.RotationsVisit` | mullvad-api/src/access_mode.rs:359-391 | a run of rotate commands, whatever the resolver answers, moves the selector along these visits and announces once per rotation |
| `AccessMode.HandledKeepsConsistency` | mullvad-api/src/access_mode.rs:332-391 | every command keeps the position naming the current setting, and announces exactly when it sets a current method |
| `AccessMode.RunIsConsistent` | mullvad-api/src/access_mode.rs:245-290 | in every run from spawning, the position is in range and names the current setting, and the last announced mode is the current one |
| `AccessMode.EnabledAfterCommand` | mullvad-api/src/access_mode.rs:443-474 | for each command, exactly when the method in use afterwards is enabled |
| `AccessMode.RunKeepsEnabled` | mullvad-api/src/access_mode.rs:443-474 | if every settings value has an enabled method and Use names no disabled one, the method in use is enabled in every state, however updates remove, disable or reorder it |
| `AccessMode.UsePutsMethodInUse` | mullvad-api/src/access_mode.rs:332-352 | Use puts the first method with the id in use and announces it once; an unknown id changes nothing |
| `AccessMode.UpdateFollowsMethod` | mullvad-api/src/access_mode.rs:443-463 | an update takes the new settings and follows the method in use: unchanged it stays without an announcement, changed but enabled it is used as it now is, disabled it gives way to the first enabled one cyclically after it |
| `AccessMode.AnnouncedIsResolved` | mullvad-api/src/access_mode.rs:502-521 | a method put in use is announced with the mode and endpoint the resolver gave for it, or as a direct connection to the default endpoint when it gave none |
| `AccessMode.RemovalKeepsSuccessorACandidate` | mullvad-api/src/access_mode.rs:464-471 | an update that removes the method in use goes on with its successor if and only if the position was not 0, or method 0 is disabled, or no other is enabled: the decrement saturates at 0 |
| `AccessMode.RemovalSkipsFirstMethod` | mullvad-api/src/access_mode.rs:464-471 | a fresh selector whose update replaces every method by an enabled one goes on with method 1 instead of method 0 |
| `AccessMode.AccessModeSelector.constructor` | mullvad-api/src/access_mode.rs:245-290 | a spawned selector is consistent and has announced nothing |
| `AccessMode.AccessModeSelector.OnUse` | mullvad-api/src/access_mode.rs:332-352 | the object refines the specification of Use, ignores an unknown id, and stays consistent if it was |
| `AccessMode.AccessModeSelector.OnRotate` | mullvad-api/src/access_mode.rs:359-378 | the object refines the specification of Rotate and stays consistent |
| `AccessMode.AccessModeSelector.OnUpdate` | mullvad-api/src/access_mode.rs:443-474 | the object refines the specification of Update in all four branches and stays consistent |
| `AccessMode.AccessModeSelector.Handle` | mullvad-api/src/access_mode.rs:292-315 | one turn of the command loop refines one step of a run |
| `RequestService.OneRotationPerGeneration` | mullvad-api/src/rest.rs:220-268 | before the counter wraps, the failures that rotated came from generations 0, 1, 2, ... one each, the counter equals their number, and for every processed failure the generation of its request has rotated exactly once |
| `RequestService.FailureRotatesIff` | mullvad-api/src/rest.rs:228-234 | a failure rotates exactly when the counter has gone round a whole number of times since its request started |
| `RequestService.StaleRequestRotatesAfterWrap` | mullvad-api/src/rest.rs:228-232 | for every counter width there is a run in which a request from generation 0 rotates a second time after the wrap |
| `RequestService.OnlyNetworkErrorsRotate` | mullvad-api/src/rest.rs:256-265 | in every run the rotations asked for and queued are no more than the requests that ended in a network error while online, each goes back to one of them, and without one the first generation stays |
| `RequestService.CommandsInOrder` | mullvad-api/src/rest.rs:220-268 | in every run the queue is what clients and ended requests sent, in that order, behind what was processed |
| `RequestService.RequestsEndOnce` | mullvad-api/src/rest.rs:238-269 | the requests in flight and those that ended are together exactly those started, each with the generation it started under |
| `RequestService.RequestServiceActor.EndRequest` | mullvad-api/src/rest.rs:253-268 | the end of a request sends a command exactly when it ended in a network error while online, and keeps the invariant |
| `RequestService.RequestServiceActor.ProcessCommand` | mullvad-api/src/rest.rs:220-236 | the actor refines the specification of one command and keeps the invariant |
| `ConnectionMode.StoredAllIsLastParsed` | mullvad-api/src/https_client_with_sni.rs:334-348 | after a series of mode switches the stored mode is the last one that parses, and the old one if none does |
| `ConnectionMode.ParseLosesNothing` | mullvad-api/src/https_client_with_sni.rs:258-291 | a mode parses exactly unless its cipher is not recognised, and can be read back from what is stored, credentials included |
| `Connector.PendingConnectsSeeEverySwitch` | mullvad-api/src/https_client_with_sni.rs:471-491 | in every interleaving, an attempt in progress uses the stored mode, or its abort notice has fired, or the request task has yet to notify |
| `Connector.RequestsCloseEarlierStreams` | mullvad-api/src/https_client_with_sni.rs:350-355 | between requests every stream registered before the last request is closed, and every open stream is listed, whatever was pruned |
| `Connector.OpenStreamUsesStoredModeIff` | mullvad-api/src/https_client_with_sni.rs:471-498 | an open stream uses the stored mode if and only if the mode it read equals the one stored when it registered |
| `Connector.StaleStreamCanSurviveSwitch` | mullvad-api/src/https_client_with_sni.rs:487-498 | a run in which a connection that completes after the switch registers a stream of the old mode that stays open |
| `Connector.RequestsInOrder` | mullvad-api/src/https_client_with_sni.rs:330-356 | in every run requests take effect in the order sent, each once, and a reset stores nothing |
| `Connector.StreamsCloseForCause` | mullvad-api/src/https_client_with_sni.rs:350-354 | in every run a stream is closed only because its client dropped it or a later request took it |
| `Connector.PollReadyPrunes` | mullvad-api/src/https_client_with_sni.rs:438-442 | after poll_ready the list holds exactly the open streams it held |
| `Connector.DroppedStreamsStayClosed` | mullvad-api/src/abortable_stream.rs:32-39 | a stream that its client dropped is closed from then on |
| `Connector.AttemptsGetThrough` | mullvad-api/src/https_client_with_sni.rs:471-498 | whenever no request is being handled, a pending attempt can still register an open stream that uses the stored mode |
| `Connector.AttemptEndsIff` | mullvad-api/src/https_client_with_sni.rs:471-498 | an attempt ends exactly when its connection fails or its stream is registered |
| `Connector.NoticeStays` | mullvad-api/src/https_client_with_sni.rs:471-491 | a notice that was given stays until the attempt starts over or has connected |
| `Connector.AbortableStreamHandle.Close` | mullvad-api/src/abortable_stream.rs:25-29 | a closed handle reports closed, and closing it again changes nothing |
| `Connector.HttpsConnector.TakeHandles` | mullvad-api/src/https_client_with_sni.rs:331-351 | the locked section stores the mode if it parses and hands over every listed stream |
| `Connector.HttpsConnector.CloseHandles` | mullvad-api/src/https_client_with_sni.rs:352-354 | the loop closes every stream taken and touches no other |
| `Connector.HttpsConnector.HandleRequest` | mullvad-api/src/https_client_with_sni.rs:331-354 | up to the notice to the attempts, a round stores the mode if it parses, empties the list and leaves no stream open that was on it |
| `Connector.HttpsConnector.PollReadyAndPrune` | mullvad-api/src/https_client_with_sni.rs:438-442 | pruning keeps exactly the handles whose streams are not closed, in order |
| `ApiStack.RunKeepsInvariant` | mullvad-api/src/rest.rs:161-218 | selector, service and connector, joined by their queues, keep their joint invariant in every interleaving |
| `ApiStack.ActorsRunAlone` | mullvad-api/src/rest.rs:199-236 | in every run of the stack the selector and the service are in states they reach alone on what they handled, so that all that holds of their runs holds here |
| `ApiStack.CommandsReachSelector` | mullvad-api/src/access_mode.rs:292-315 | commands of clients and rotations of the service reach a running selector in the order sent, none lost and none twice |
| `ApiStack.RequestsReachConnector` | mullvad-api/src/rest.rs:199-227 | announcements and resets reach the connector in the order in which the service handled them, none lost and none twice |
| `ApiStack.EndToEndAgreement` | mullvad-api/src/rest.rs:199-218 | in every run, working off the connector queue and then the announcements still to be forwarded leaves the connector with the last announced mode that parses, which is the current mode of the selector whenever that parses |
| `ApiStack.Drain` | mullvad-api/src/rest.rs:199-218 | from every state of every run in which the service is up, also one in which it waits for a reply, and whatever the resolver answers, the run can go on until inbox and queues are empty, nobody waits and both ends agree |
| `ApiStack.RotationsAreServed` | mullvad-api/src/rest.rs:228-234 | a waiting service always has its one rotation queued at a running selector, and while the selector runs every rotation asked for is served exactly once |
| `TokenStore.SingleFlight` | mullvad-api/src/access.rs:85-142 | in every run the outstanding fetches of an account number one if a fetch is tracked, plus one per invalidation that found the tracked fetch completed, minus one per completion handled while none was tracked; without such races at most one |
| `TokenStore.RacesPileUp` | mullvad-api/src/access.rs:106-142 | for every n there is a run after which one account has n fetches outstanding, none of them tracked |
| `TokenStore.NoWaiterIsForgotten` | mullvad-api/src/access.rs:67-142 | every sender is in exactly one of answered, dropped by invalidation or waiting, and a waiting one has a tracked fetch that runs or whose completion is queued |
| `TokenStore.TokenProvenance` | mullvad-api/src/access.rs:127-142 | every token stored or answered came from a fetch for the same account |
| `TokenStore.AnswersAreEarned` | mullvad-api/src/access.rs:67-142 | in every run a granted or stored token has the text with which its fetch ended, and a sender is told of a failure only if a fetch for its account failed |
| `TokenStore.CompletionAnswers` | mullvad-api/src/access.rs:127-142 | a completion gives its token or its failure to every waiting sender of the account and to nobody else, and only a token replaces the stored one |
| `TokenStore.GetAnswersOrWaits` | mullvad-api/src/access.rs:67-105 | a request is answered from the stored token exactly when there is one that has not expired; otherwise it waits last and a fetch is started exactly when none is tracked |
| `TokenStore.InvalidationForgets` | mullvad-api/src/access.rs:106-123 | an invalidation drops exactly the senders that wait, forgets the token, stops the tracked fetch if it runs, and touches no other account |
| `TokenStore.CompletionsInOrder` | mullvad-api/src/access.rs:127-142 | completions are handled one by one in the order in which the fetches ended |
| `TokenStore.InvalidationIsFinalIff` | mullvad-api/src/access.rs:106-123 | after an invalidation all later senders get tokens of later fetches if and only if no fetch of the account is left running or queued with a token |
| `TokenStore.CompletedFetchOutlivesInvalidation` | mullvad-api/src/access.rs:106-123 | a fetch that completes just before the invalidation still hands its token to a later sender |
| `TokenStore.AccessTokenStore.GetAccessToken` | mullvad-api/src/access.rs:67-105 | the store refines the specification of a token request: cached, joined to the tracked fetch, or fetched |
| `TokenStore.AccessTokenStore.InvalidateToken` | mullvad-api/src/access.rs:106-123 | the store refines the specification of an invalidation |
| `TokenStore.AccessTokenStore.Drain` | mullvad-api/src/access.rs:135-137 | the loop answers every waiting sender with the same result and no other sender |
| `TokenStore.AccessTokenStore.HandleCompletion` | mullvad-api/src/access.rs:127-142 | the store refines the specification of a completed fetch |
| `Availability.NoLostWakeup` | mullvad-api/src/availability.rs:165-185 | in every interleaving of setters and waiters, a blocked waiter with nothing left to receive waits for a condition that is false right now |
| `Availability.OutcomesAreHonest` | mullvad-api/src/availability.rs:165-185 | a wait that succeeds saw its condition true in a state that was current between call and return; it is interrupted only after more changes than the channel holds |
| `Availability.ReadyWaiterReturns` | mullvad-api/src/availability.rs:178-183 | while its condition holds a waiter returns after receiving what is queued for it |
| `Availability.SuccessSinceCall` | mullvad-api/src/availability.rs:165-185 | success goes back to the state current at the call or to one broadcast after it, never to an older one |
| `Availability.ReceiveInterruptedIff` | mullvad-api/src/availability.rs:178-183 | a receive is interrupted exactly when more broadcasts are unread than the channel holds, and otherwise ends the wait exactly when the oldest unread state satisfies it |
| `Availability.ReadyUnlessReasonStands` | mullvad-api/src/availability.rs:30-49 | in every run a task may go on exactly when the last setter of each reason that concerns it cleared it; background work is concerned by all four |
| `Availability.SuccessCanBeStale` | mullvad-api/src/availability.rs:178-183 | for every condition and every positive number of unread broadcasts below the capacity, a run in which success comes after the condition is false again |
| `Availability.SuccessIsCurrentIff` | mullvad-api/src/availability.rs:165-185 | in every run success means that the condition holds right now if and only if nothing was broadcast behind the state that the task saw |
| `Availability.BroadcastsFlipOneFlag` | mullvad-api/src/availability.rs:194-258 | every setter flips at most one flag, and broadcasts exactly as often as it flips one |
| `Availability.ApiAvailabilityState.DoSuspend` | mullvad-api/src/availability.rs:195-201 | sets the suspended flag and broadcasts the new state once if the flag was clear, and otherwise does neither |
| `Availability.ApiAvailabilityState.DoUnsuspend` | mullvad-api/src/availability.rs:203-209 | clears the suspended flag and broadcasts once if it was set, and otherwise does neither |
| `Availability.ApiAvailabilityState.DoSetInactive` | mullvad-api/src/availability.rs:211-218 | sets the inactive flag and broadcasts once if it was clear, and otherwise does neither |
| `Availability.ApiAvailabilityState.DoSetActive` | mullvad-api/src/availability.rs:220-230 | clears the inactive flag and broadcasts once if it was set, and otherwise does neither |
| `Availability.ApiAvailabilityState.DoSetOffline` | mullvad-api/src/availability.rs:232-242 | stores the offline flag and broadcasts once if it differs, and otherwise does neither |
| `Availability.ApiAvailabilityState.DoPauseBackground` | mullvad-api/src/availability.rs:244-250 | sets the paused flag and broadcasts once if it was clear, and otherwise does neither |
| `Availability.ApiAvailabilityState.DoResumeBackground` | mullvad-api/src/availability.rs:252-258 | clears the paused flag and broadcasts once if it was set, and otherwise does neither |
| `Availability.ApiAvailabilityState.PollWait` | mullvad-api/src/availability.rs:178-183 | the receive loop ends at the first queued state that satisfies the condition, is interrupted when it lagged, or has consumed everything |
| `RelayList.LowerCommutesWithSplit` | mullvad-api/src/relay_list.rs:141-147 | lowercasing a whole location code and then splitting it gives the same key as splitting it and lowercasing the parts |
| `RelayList.SplitIsFirstTwoParts` | mullvad-api/src/relay_list.rs:141-147 | the key is the part before the first dash and the part between the first two, and there is none without a dash |
| `RelayList.BuildRegions` | mullvad-api/src/relay_list.rs:98-122 | the loop over the locations yields one country per country code, named by its first location, with its cities in location order |
| `RelayList.CityHasLocation` | mullvad-api/src/relay_list.rs:157-165 | every city has the code, name and coordinates of a location of its country |
| `RelayList.CountryNamedByFirst` | mullvad-api/src/relay_list.rs:149-155 | a country is named by the first location with its code |
| `RelayList.ExtractRelays` | mullvad-api/src/relay_list.rs:205-231 | the loop of each extract_relays files every relay with a place there, in input order, and changes nothing else |
| `RelayList.IntoRelayList` | mullvad-api/src/relay_list.rs:98-136 | the list is the regions filled with the OpenVPN, then the WireGuard, then the bridge relays |
| `RelayList.ListHoldsEachRelayOnce` | mullvad-api/src/relay_list.rs:205-231 | the relays of a city are the conversions of inputs at ascending positions, exactly those whose lowercased location code names this city and no earlier one with its code; each says it is in the country and city it is listed under |
| `RelayList.ListedRelayKeepsData` | mullvad-api/src/relay_list.rs:349-370 | a listed relay has all the data the server gave, a lowercased hostname, the location of its city, and the endpoint data of its list; DAITA by either flag |
| `RelayList.RelayIsListedIff` | mullvad-api/src/relay_list.rs:210-217 | an input relay is listed in some place if and only if a location has, lowercased, its country and city code, and never in two places |
| `AsyncOperation.StateIncreasesUnless` | ios/Operations/AsyncOperation.swift:70-84 | the state strictly increases at every assignment of a run if and only if the operation never begins, uncancelled, after finish was called |
| `AsyncOperation.ObserverTraces` | ios/Operations/AsyncOperation.swift:282-379 | at all times of a run observers are sure to be told a beginning of start-finish, start-cancel-finish or cancel-finish, if later calls of finish are guarded, if and only if all calls of finish in the run are: each comes after _start has run, or is not the first, or finds the operation started and cancelled |
| `AsyncOperation.GuardedRunIsTold` | ios/Operations/AsyncOperation.swift:282-379 | in every run with guarded calls of finish observers are told a beginning of one of the three traces, all of it once the operation has run, finished and given its notices, and the state never goes back |
| `AsyncOperation.ToldProperlyIffGuarded` | ios/Operations/AsyncOperation.swift:326-337 | in a run that went well so far, a call of finish leaves observers sure to be told properly if and only if it is guarded |
| `AsyncOperation.UnguardedFinishIsTold` | ios/Operations/AsyncOperation.swift:326-337 | after an unguarded call observers are told of the finish first if the operation was not started, and otherwise can be told of it twice |
| `AsyncOperation.MainRunsOnlyIfSatisfied` | ios/Operations/AsyncOperation.swift:194-298 | from any state of any run before main has run, and if later calls of finish find the operation ready, further on or cancelled, main is sure to run only on satisfied conditions if and only if the operation was not finished, uncancelled, before all conditions were satisfied |
| `AsyncOperation.MainRunsOnce` | ios/Operations/AsyncOperation.swift:282-298 | in every run main runs at most once, and exactly when observers are told of the start |
| `AsyncOperation.TimelyFinishKeepsConditions` | ios/Operations/AsyncOperation.swift:194-298 | in every run in which finish finds the operation ready, further on or cancelled, main runs only if every condition reported satisfied |
| `AsyncOperation.EarlyFinishRunsMainUnsatisfied` | ios/Operations/AsyncOperation.swift:326-337 | finish before the only condition has reported, and then start, runs main |
| `AsyncOperation.CancelledNeverRunsMain` | ios/Operations/AsyncOperation.swift:282-298 | a cancelled operation stays cancelled and main never runs afterwards, in any run |
| `OperationOutcome.CancelledOnlyForCause` | ios/Operations/AsyncOperation.swift:220-232 | in every run an operation is cancelled only by a call of cancel or by a condition that reported false, and a call of cancel always does |
| `OperationOutcome.CanRunMainIff` | ios/Operations/AsyncOperation.swift:194-298 | before main has run or the operation finished, main can still run, without a finish that comes too early, if and only if the operation is not cancelled and no condition has refused |
| `OperationOutcome.MainWaitsForDependencies` | ios/Operations/AsyncOperation.swift:118-139 | without a call of finish main runs only after the dependencies were found finished when the conditions were evaluated and when start was called |
| `OperationOutcome.FinishSetsError` | ios/Operations/AsyncOperation.swift:361-371 | the step that finishes sets the error of its call, or the cancellation error in a cancelled _start, and no other step changes it |
| `OperationOutcome.FirstResultCounts` | ios/Operations/AsyncOperation.swift:361-371 | with guarded calls of finish a finished operation keeps its state and error |
| `AsyncOperation.EarlyFinishRevives` | ios/Operations/AsyncOperation.swift:326-337 | a run in which finish between start and _start makes a finished operation execute, with nothing left queued that would report it finished again |
| `AsyncOperation.AsyncOperationObject.SetState` | ios/Operations/AsyncOperation.swift:70-84 | the setter assigns the state and notes exactly when it does not increase |
| `AsyncOperation.AsyncOperationObject.Enqueue` | ios/Operations/AsyncOperation.swift:341-350 | enqueueing makes an initialized operation pending and leaves any other alone |
| `AsyncOperation.AsyncOperationObject.CheckIsReady` | ios/Operations/AsyncOperation.swift:352-359 | only a pending, uncancelled operation whose dependencies are ready starts its conditions, or becomes ready without any |
| `AsyncOperation.AsyncOperationObject.DoCancel` | ios/Operations/AsyncOperation.swift:304-320 | cancelling counts once, and queues the observers only while executing |
| `AsyncOperation.AsyncOperationObject.DidEvaluateConditions` | ios/Operations/AsyncOperation.swift:220-232 | an unsatisfied condition cancels; the operation becomes ready unless it already is |
| `AsyncOperation.AsyncOperationObject.DoFinish` | ios/Operations/AsyncOperation.swift:326-337 | finishing assigns the error and queues the finish notice once |
| `AsyncOperation.AsyncOperationObject.TryFinish` | ios/Operations/AsyncOperation.swift:361-371 | succeeds exactly when the operation has not finished, and changes nothing otherwise |
| `AsyncOperation.AsyncOperationObject.StartLocked` | ios/Operations/AsyncOperation.swift:282-298 | a cancelled operation finishes and any other executes main, and the state goes back exactly when an uncancelled operation was already executing or finished |
| `Exclusivity.MutualExclusion` | ios/Operations/AsyncOperationQueue.swift:61-101 | in every run in which no cancelled operation overtakes its dependencies, operations sharing a category never execute at once, and each executes only when every earlier one of its categories has finished, whatever was removed |
| `Exclusivity.NoDeadlock` | ios/Operations/AsyncOperationQueue.swift:61-80 | in every state of every run some unfinished operation has all its exclusivity dependencies finished, and all can be run to completion |
| `Exclusivity.ListsHoldRegistered` | ios/Operations/AsyncOperationQueue.swift:61-101 | in every run each list holds exactly the operations of its category that were not removed after finishing, in order, and no list is empty |
| `Exclusivity.ExclusiveForeverIffOrdered` | ios/Operations/AsyncOperationQueue.swift:61-101 | from any reachable or other well-formed state exclusion holds from then on if and only if unfinished operations of each category wait for each other and for the last one listed |
| `Exclusivity.OvertakingBreaksExclusion` | ios/Operations/AsyncOperationQueue.swift:82-101 | a run in which a cancelled waiting operation lets a third one start beside the first |
| `Exclusivity.ExclusivityManager.AddOperation` | ios/Operations/AsyncOperationQueue.swift:61-80 | the loop over the categories, in any order, appends the operation to each list and returns the last operation of each as dependency |
| `Exclusivity.ExclusivityManager.RemoveOperation` | ios/Operations/AsyncOperationQueue.swift:82-101 | the loop over the categories, in any order, removes the operation from each list and keeps the others in order |
| `LogFile.SearchLandsBehindNewline` | ios/MullvadLogging/LogFileOutputStream.swift:234-250 | the chunked search lands just behind the first newline whenever the chunk holding it may be read, and otherwise at the limit before it |
| `LogFile.SearchHangsIff` | ios/MullvadLogging/LogFileOutputStream.swift:234-250 | the search never returns if and only if no newline is left and the end of the file is a whole chunk below the limit |
| `LogFile.WriteKeepsFileBounded` | ios/MullvadLogging/LogFileOutputStream.swift:119-154 | a chunk that fits half the limit next to the header keeps the file below the limit, header first |
| `LogFile.WriteStaysBelowLimitIff` | ios/MullvadLogging/LogFileOutputStream.swift:119-154 | a chunk keeps every file below the limit if and only if chunk and header are at most half the limit, plus one byte if the search may read |
| `LogFile.FileStaysBounded` | ios/MullvadLogging/LogFileOutputStream.swift:91-154 | in every run, whatever input and output fail, the file stays below the limit and begins with the header while open |
| `LogFile.FileHoldsRecords` | ios/MullvadLogging/LogFileOutputStream.swift:91-168 | without failures, on any existing file: up to the first truncation the log is the header, all records and the old bytes behind them; from then on the header and an end of these, with the old bytes where the truncation found them |
| `LogFile.ReopenedHoldsBuffer` | ios/MullvadLogging/LogFileOutputStream.swift:199-215 | after a reopening the header, the buffer and all later records lie over the old contents in the same way |
| `LogFile.OnlyLatestIff` | ios/MullvadLogging/LogFileOutputStream.swift:156-168 | up to the first truncation the log is the header and an end of what was written if and only if that covers the old contents |
| `LogFile.OldBytesSurvive` | ios/MullvadLogging/LogFileOutputStream.swift:156-168 | a log opened on three old bytes that keeps the last of them behind the first record |
| `LogFile.FileHoldsLatestRecords` | ios/MullvadLogging/LogFileOutputStream.swift:91-154 | without failures, on a file that the header covers, the log is the header and an end of everything recorded, in order and without a gap |
| `LogFile.BufferIsLatestBytes` | ios/MullvadLogging/LogFileOutputStream.swift:199-223 | in every run the retry buffer is, byte for byte, the last capacity bytes of what was recorded since the file was last open, it is empty while the file is open, and the timer runs exactly while waiting to reopen |
| `LogFile.WaitsIffFailed` | ios/MullvadLogging/LogFileOutputStream.swift:91-117 | after a step that returned the stream waits to reopen exactly when it waited before or opening or writing failed |
| `LogFile.FileKeptUnlessOpened` | ios/MullvadLogging/LogFileOutputStream.swift:114-115 | a record made while waiting, or a step that cannot open the file, leaves the file as it is |
| `LogFile.WaitsForeverIff` | ios/MullvadLogging/LogFileOutputStream.swift:199-215 | in any run a waiting stream never opens again, whatever happens, if and only if its buffer is above the size limit |
| `LogFile.OversizedBufferHappens` | ios/MullvadLogging/LogFileOutputStream.swift:199-223 | a run in which one failure to open leaves such a buffer |
| `LogFile.WholeLinesNeverHang` | ios/MullvadLogging/LogFileOutputStream.swift:140-154 | if contents, header and records are whole lines and only opening fails, every write returns |
| `LogFile.LargeRecordHangs` | ios/MullvadLogging/LogFileOutputStream.swift:140-154 | a record above half the limit never returns when the file ends below the middle |
| `LogFile.LogFileOutputStream.AssignState` | ios/MullvadLogging/LogFileOutputStream.swift:27-40 | assigning the state starts the reopen timer on entering the waiting state, stops it on leaving, and changes nothing else |
| `LogFile.LogFileOutputStream.BufferData` | ios/MullvadLogging/LogFileOutputStream.swift:217-223 | the object refines the specification of buffering |
| `LogFile.LogFileOutputStream.WriteRecord` | ios/MullvadLogging/LogFileOutputStream.swift:106-112 | the object refines the specification of writing to an open file |
| `LogFile.LogFileOutputStream.WriteOnQueue` | ios/MullvadLogging/LogFileOutputStream.swift:91-117 | the object refines one record step, for every place where input or output may fail |
| `LogFile.LogFileOutputStream.ReopenFile` | ios/MullvadLogging/LogFileOutputStream.swift:199-215 | the object refines one reopen step, for every place where input or output may fail |
| `Saturating.WrapIsCongruent` | ios/MullvadTypes/FixedWidthInteger+Arithmetics.swift:14-46 | the wrapped value is in range and differs from the exact one by a multiple of the size |
| `Saturating.AdditionClampsIff` | ios/MullvadTypes/FixedWidthInteger+Arithmetics.swift:26-34 | saturating addition is the clamped sum if and only if the width is signed or nothing overflows |
| `Saturating.SubtractionClamps` | ios/MullvadTypes/FixedWidthInteger+Arithmetics.swift:38-46 | saturating subtraction is the clamped difference at every signed and unsigned width |
| `Saturating.MultiplicationClamps` | ios/MullvadTypes/FixedWidthInteger+Arithmetics.swift:14-22 | saturating multiplication is the clamped product at every signed and unsigned width |
| `Saturating.UnsignedCounterRestarts` | ios/MullvadTypes/FixedWidthInteger+Arithmetics.swift:26-34 | at every unsigned width, adding one to the maximum gives zero |
| `Saturating.MillisecondsRoundTrip` | ios/MullvadTypes/Duration.swift:25-33 | every Int of milliseconds becomes a proper duration of exactly that length, less than a second of it in attoseconds, and is read back unchanged |
| `Saturating.ReadsExactlyIff` | ios/MullvadTypes/Duration+Extensions.swift:25-27 | reading gives the exact milliseconds if and only if neither the seconds nor the whole exceed the range |
| `Saturating.OperatorsClamp` | ios/MullvadTypes/Duration.swift:66-84 | duration sum, difference and integer multiple are clamped integer arithmetic on milliseconds |

## Left out

- Sockets, TLS, Shadowsocks and SOCKS handshakes, HTTP and JSON: a connection or a request ends some time later, with any result.
- The `api-override` and forced-direct branches and Android's socket bypass: configuration plumbing.
- The delivery order of `AccessMethodEvent`: every event is sent from a task of its own, so that none is promised.
- The inactivity timer of the availability state: its expiry is the event that calls `set_inactive`.
- Shutdown of the token store: a waiting caller keeps its channel open.
- The rewriting of the relay list's ETag, the port ranges and gateways of the endpoint lists, the IP override flags that every relay starts without, and the order in which the country map is turned into a list: easy members.
- The debug assertion that the old and the new DAITA flag agree: it is absent from release builds.
- RelayList.ExtractRelays: returns the new map of countries instead of changing the caller's map in place; aliasing is not modelled.
- Relay coordinates and the conversion of attoseconds are exact numbers instead of floating-point ones.
- Saturating.MillisecondsRoundTrip: takes the conversion of whole milliseconds to and from attoseconds to be exact, which the source does through `Double`.
- `saturatingPow`, the product of a duration and a `Double`, `timeInterval`, comparison of durations and `logFormat`: floating point.
- Operation observers and conditions as objects: the model keeps what they are told and what they answer.
- Log rotation, the archive of old log files, promises, observer lists, custom lists, IP overrides, settings migrations and the user interface: they would only add easy members.
