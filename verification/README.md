# A Dafny model of the Ditto Go SDK

The SDK is a Go layer over a C library. C does the database work; the Go layer turns C's
callbacks into blocking calls, keeps registries of callbacks and of live objects, owns C
pointers, and shapes results for its users. This project models that layer and proves what its
documentation promises of it, for every interleaving of goroutines, C callbacks and finalizers.

`dafny verify dfyconfig.toml` checks everything. Dafny is 4.11.

## How it is built

Concurrent parts are labelled transition systems (`Runs.dfy`): a start state and a partial
step function whose events carry every nondeterministic choice, such as which goroutine moves
and what C answers. A step is one lock operation, channel operation, atomic operation or
statement of the Go code. Main results hold after every run, or for every state a run reaches.
C is the environment: it may do anything that its header allows, above all call a continuation
at most once and then free it, and call a store observer's callback sequentially and only after
a signal. Beside each such system stands a class with the fields that the Go code updates, whose
methods do to the fields, one call at a time, what the steps do to the state.

Sequential parts are classes, arrays and loops proved against specification functions or
predicates, about which round trips, uniqueness and order are then proved.

No lemma relies on Dafny's automatic induction: each is marked `{:induction false}` and writes
its induction out.

| file | what it models |
|---|---|
| `Wrappers.dfy`, `Runs.dfy` | optional values and results; runs of a transition system, and the two induction principles used everywhere |
| `Lifecycle.dfy` | the public calls of Ditto, Sync, SyncSubscription, Store and StoreObserver as lists of lock operations and statements; any number of goroutines |
| `LockDiscipline.dfy` | every lock is taken above those held; mutual exclusion and freedom from deadlock |
| `RegistryAgreement.dfy`, `Registrations.dfy` | the lists of subscriptions and observers against the registrations themselves |
| `Closing.dfy`, `Escaping.dfy` | which registrations Close cancels, exactly, and a run in which one escapes it |
| `Draining.dfy` | every call returns, whoever schedules the goroutines |
| `Solo.dfy`, `Calls.dfy`, `Shutdown.dfy` | what each call achieves when nobody interrupts it; a closed instance is freed and stopped |
| `Objects.dfy` | the same operations on objects and on a slice edited in place |
| `Rendezvous.dfy`, `CallbackContexts.dfy` | blocking transaction calls over C's asynchronous ones |
| `StatusBroadcast.dfy` | authentication status observers |
| `TransactionProtocol.dfy`, `TransactionObject.dfy` | Store.Transaction around an arbitrary user function; merging of query arguments |
| `ObserverContexts.dfy`, `ObserverRegistry.dfy` | the registry of store observer contexts and the callback from C |
| `ObserverSignals.dfy` | backpressure between C and one store observer |
| `LoginProviders.dfy` | reference counts of login providers |
| `HandleRelease.dfy`, `ItemLock.dfy` | exactly-once release of C pointers |
| `LazyItem.dfy` | the lazily decoded value of a query result item |
| `QueryIteration.dfy` | iterating over a query result, and diffing one |
| `DiffText.dfy` | Diff.String, its inverse, and Diff.Equal |
| `Benchmark.dfy` | the statistics of the DQL command line's benchmark |
| `Csv.dfy` | the CSV table of query results |
| `DiskUsage.dfy` | the disk usage tree |

## Where the code and its documentation disagree

The model follows the code.

- Ditto.Close is documented to cancel all subscriptions and observers. `closed` is set after the
  cancel-alls (ditto/ditto.go:363-375), so a registration that overlaps Close can stay live:
  `Escaping.RegistrationCanEscapeClose` is such a run. `Escaping.CancelledByCloseExactly` says when
  the promise holds: a live registration of an open instance is cancelled whenever the instance
  gets closed, if and only if every Close that has yet to set `closed` still has its cancel-all
  ahead of it.
- Cancelling a status observer is documented to end its notifications. A status published before
  the cancel is handed out after the lock is released, so it may still arrive:
  `StatusBroadcast.DispatchCanOutliveCancel` is such a run. `StatusBroadcast.CancelIsFinalExactly`
  says when the promise holds: if and only if at the time of the cancel no goroutine is about to
  call the observer and no publisher has it still to serve.
- A QueryResultHandle has a finalizer for when nobody closes it (internal/ffi/bindings.go:216-229). The ones
  that Transaction.Execute and store observers hand out are built without a finalizer
  (internal/ffi/transaction.go:239, internal/ffi/observer.go:205), so a dropped one leaks.
  `HandleRelease.DroppedHandleIsFinalized` says so for every handle: it can still be freed if and
  only if it was made with a finalizer.
- After a normal completion the transaction's handle is not freed: `complete` sets `closed`
  (ditto/transaction.go:139), so `cleanup` returns before its free. `FinishedCalls` says that the
  handle is freed if and only if the user function panicked.
- QueryResultItem.Value is documented to return nil on a closed item; the code returns an empty
  document (ditto/query_result_item.go:87-89).
- The question at ditto/query_result_item.go:29, whether `closed` is needed, is settled:
  `closed` holds exactly when the handle is nil (`LazyItem.QueryResultItem.Close` and
  `ItemLock.ItemFreedOnce`), and the branches that would encode a cached value are dead.
- A CSV table without any column cannot be read back; with one column at least it can
  (`Csv.RoundTrip`).

## Model

| member | source | states |
|---|---|---|
| LockDiscipline.DeadlockFreedom | ditto/ditto.go:352-388 | in every reachable state with an unfinished call, for any number of goroutines, subscriptions and observers, some goroutine can take its next step |
| LockDiscipline.MutualExclusion | ditto/sync.go:72-107 | a lock held for writing is held by nobody else, in every reachable state |
| LockDiscipline.CallsClimb | ditto/sync_subscription.go:56-82 | every public call takes its locks in the order Ditto, Store or Sync, StoreObserver or SyncSubscription, nests them only inside Ditto's, gives them back in reverse, and touches shared state only under the lock that guards it, with two exceptions: RegisterSubscription reads `closed` under Sync's lock instead of Ditto's, and RegisterObserver the atomic handle under Store's |
| LockDiscipline.SomebodyMoves | ditto/store.go:521-531 | lock order alone excludes deadlock, also with writers that keep new readers out |
| Calls.RegisterAlone | ditto/sync.go:37-60 | from any reachable state with the list's lock free, an uninterrupted registration adds exactly one live registration, last in its list, if and only if C accepts and the instance is not closed (subscriptions) or its handle not freed (observers); otherwise nothing changes |
| Calls.CancelAlone | ditto/sync_subscription.go:56-82 | an uninterrupted Cancel leaves the registration cancelled and freed by C once, and a subscription out of its list |
| Calls.StartAlone | ditto/sync.go:113-129 | an uninterrupted Start makes sync active if and only if the instance is open and C agrees, and changes nothing else |
| Calls.StopAlone | ditto/sync.go:132-142 | after an uninterrupted Stop sync is inactive, and nothing else has changed |
| Calls.CloseAlone | ditto/ditto.go:352-380 | an uninterrupted first Close cancels every registration, empties both lists, stops sync, frees the handle once and closes the instance; a later one changes nothing |
| Shutdown.ClosedMeansShutDown | ditto/ditto.go:363-375 | in every reachable state a closed instance has its handle freed exactly once and sync inactive, and no handle is freed twice |
| Draining.EveryScheduleEnds | ditto/sync_subscription.go:56-82 | whatever C answers, no schedule of steps goes on for ever without new calls, and one that picks a possible step whenever there is one finishes all calls |
| Draining.EveryCallCanReturn | ditto/sync_subscription.go:56-63 | from every reachable state there is a schedule that finishes all calls under way without any new one |
| RegistryAgreement.ListAgreesWithLiveSet | ditto/sync.go:37-107 | in every reachable state lists have no repeats, hold everything registered and uncancelled, and hold a cancelled subscription only while its removal or a cancel-all is under way |
| RegistryAgreement.ListIsLiveSetAtRest | ditto/sync.go:72-79 | once every call has returned, the list is exactly the uncancelled subscriptions |
| RegistryAgreement.CancelledOnce | ditto/sync_subscription.go:66-82 | C is asked to cancel and to free each subscription or observer exactly once if it is cancelled, by whomever and however often, and never otherwise |
| Escaping.CancelledByCloseExactly | ditto/ditto.go:352-380 | in a reachable state with the instance open, a live subscription or observer is cancelled in every later state with the instance closed, if and only if no Close that has yet to set `closed` is past its cancel-all |
| Escaping.EscapeRoute | ditto/ditto.go:363-375 | from any state in which a Close is past its cancel-all, a schedule closes the instance with the registration still live, whatever other calls are under way |
| Closing.CloseCancelsEverything | ditto/ditto.go:352-380 | what was registered while no Close had got past its cancel-all is cancelled in every later state in which the instance is closed |
| Escaping.RegistrationCanEscapeClose | ditto/sync.go:40-60 | a run after which the instance is closed and a subscription is still live |
| Registrations.WithoutDeletesOne | ditto/sync.go:83-95 | removing a subscription deletes its first entry only and keeps the order of the rest |
| Registrations.WithoutAbsent | ditto/sync.go:83-95 | removing what is not listed changes nothing |
| Objects.Registrant.Cancel | ditto/store_observer.go:79-97 | only the first cancel reaches C, and it gives up the handle |
| Objects.RegistrantList.Append | ditto/sync.go:58-59 | a registration is added at the end of the slice |
| Objects.RegistrantList.Snapshot | ditto/sync.go:72-79 | the copy is a new array with the list's contents, so no later edit reaches it |
| Objects.RegistrantList.Remove | ditto/sync.go:83-95 | shifting the slice in place deletes exactly the given entry, if it is listed |
| Objects.RegistrantList.CancelAll | ditto/sync.go:99-107 | every entry is cancelled and the list is empty afterwards |
| Objects.Ditto.Start | ditto/sync.go:113-129 | sync starts only on an open instance and only if C agrees |
| Objects.Ditto.Stop | ditto/sync.go:132-142 | sync is inactive afterwards, closed or not |
| Objects.Ditto.Close | ditto/ditto.go:352-378 | the first Close cancels every observer and subscription, stops sync and frees the handle; a later one changes nothing |
| Rendezvous.EachGetsItsOwnResult | internal/ffi/transaction.go:332-457 | a blocking call that has returned, returned what C produced for its own id, which no other call shares |
| Rendezvous.CallbackNeverBlocks | internal/ffi/transaction.go:343-353 | C's callback always finds its caller's closure and an empty channel slot |
| Rendezvous.NoResultIsLost | internal/ffi/transaction.go:374-423 | when C's callback is over, its result is in the caller's slot or with the caller, whatever free and unregister do |
| Rendezvous.RegistryHoldsRequestsInFlight | internal/ffi/transaction.go:88-140 | a registry holds only ids of calls that have not returned, and is empty when all have |
| Rendezvous.WaitsOnlyForC | internal/ffi/transaction.go:426-457 | a call waits only while C has not finished its callback, or has freed it uncalled |
| Rendezvous.DeliveredFaithfully | internal/ffi/transaction.go:142-316 | a nil error goes with C's payload, an error with no handle or a rollback and with the text of the failed step and C's description; the closures' nil checks never fire |
| Rendezvous.RequestAlone | internal/ffi/transaction.go:332-457 | from any reachable state, an uninterrupted request returns C's answer and leaves the registries as they were |
| CallbackContexts.Contexts.Register | internal/ffi/transaction.go:89-99 | a closure is stored under an id that no entry has |
| CallbackContexts.Contexts.Unregister | internal/ffi/transaction.go:102-104 | the id is dropped, if it is there |
| CallbackContexts.Contexts.Callback | internal/ffi/transaction.go:143-182 | a known id gets C's translated result into its channel, an unknown one is ignored |
| CallbackContexts.Contexts.BlockingCall | internal/ffi/transaction.go:332-371 | a whole call returns C's answer and leaves the registry as it was, whichever of free and unregister comes first |
| StatusBroadcast.NoGapNoDuplicate | ditto/authenticator.go:126-152 | once everything has drained, an observer has got the status current at its registration once and each status published until its cancel as often as published, for any interleaving |
| StatusBroadcast.NeverTooMany | ditto/authenticator.go:241-254 | before everything has drained it has never got one too many |
| StatusBroadcast.BooksBalance | ditto/authenticator.go:241-254 | after every history, deliveries, started goroutines and waiting dispatches add up to what the observer is owed |
| StatusBroadcast.OwedByInterval | ditto/authenticator.go:287-296 | what an observer is owed is fixed by the interval from its registration to its cancel |
| StatusBroadcast.CancelIsFinalExactly | ditto/authenticator.go:287-296 | after its cancel an observer is never called with a status again, on any continuation, if and only if then no goroutine is about to call it with that status and no publisher has it still to serve |
| StatusBroadcast.DispatchCanOutliveCancel | ditto/authenticator.go:287-296 | a run in which a status reaches an observer after its cancel |
| StatusBroadcast.Authenticator.ObserveStatus | ditto/authenticator.go:126-152 | registers under a fresh id and starts one goroutine with the current status |
| StatusBroadcast.Authenticator.Snapshot | ditto/authenticator.go:242-248 | sets the status and copies each registered observer once |
| StatusBroadcast.Authenticator.NotifyStatusObservers | ditto/authenticator.go:241-254 | starts one goroutine for each registered observer with the new status, and no other |
| StatusBroadcast.Authenticator.Cancel | ditto/authenticator.go:287-296 | drops exactly this observer |
| TransactionProtocol.CallsAreWellOrdered | ditto/transaction.go:95-145 | in every reachable state, whatever the user function and its leaked goroutines do, C has seen at most one complete, nothing but a free after it, and a free only right after it |
| TransactionProtocol.FinishedCalls | ditto/store.go:401-422 | C saw exactly one complete: with the returned action if the function succeeded, else with a rollback; the handle is freed if and only if the function panicked |
| TransactionProtocol.FinishedOutcome | ditto/store.go:401-422 | the caller gets the function's panic; an error, with a rollback, if the function or C failed; otherwise the action C reported |
| TransactionProtocol.NullHandleIsNeverUsed | ditto/store.go:466-492 | after a begin that handed over a null pointer C hears nothing and no error-free outcome exists |
| TransactionProtocol.NoExecuteOnceCompleting | ditto/transaction.go:95-101 | no execute reaches C once a complete has been asked for |
| TransactionProtocol.NeverStuck | ditto/transaction.go:130-145 | after the user function only C's answers are needed until the transaction is over |
| TransactionProtocol.ExecuteAlone | ditto/transaction.go:95-121 | an uninterrupted Execute reaches C if and only if the transaction is open, has a handle and its arguments encode |
| TransactionObject.LastMapWins | ditto/store.go:92-101 | a merged placeholder has the value of the last map that names it |
| TransactionObject.NamedIsMerged | ditto/store.go:92-101 | no placeholder of any map is lost |
| TransactionObject.Merge | ditto/transaction.go:103-112 | in any map order: no map at all exactly without arguments; otherwise exactly the placeholders that some argument names, each with the value of the last one that names it |
| TransactionObject.Transaction.Execute | ditto/transaction.go:95-121 | asks C exactly if the transaction is open, its handle is set and the arguments encode |
| TransactionObject.Transaction.Complete | ditto/transaction.go:130-145 | closes the transaction, asks C once, and reports a rollback with every error |
| TransactionObject.Transaction.Cleanup | ditto/transaction.go:185-199 | does nothing after a complete; otherwise rolls back and frees |
| TransactionObject.Transaction.RunTransaction | ditto/store.go:401-422 | the exact list of C calls and the outcome, for every sequence of executes and every end of the user function |
| ObserverContexts.IdsNeverRepeat | internal/ffi/observer.go:71-120 | no two registrations draw the same id and no id is stored twice, under any interleaving |
| ObserverContexts.UnpinnedOnce | internal/ffi/observer.go:127-166 | a context is unpinned at most once, and once exactly when it has left the registry and no cleanup of it is under way; the collector never finds one to finalize |
| ObserverContexts.NotFoundAfterUnregister | internal/ffi/observer.go:141-151 | a lookup that starts after an unregister of the id has completed finds nothing |
| ObserverContexts.NothingToFinalize | internal/ffi/observer.go:164-166 | the finalizer is never needed: whoever takes a context out of the registry cleans it up |
| ObserverRegistry.RegisterAlone | internal/ffi/observer.go:71-94 | an uninterrupted registration is a run of the concurrent system to the state the object's method reaches |
| ObserverRegistry.UnregisterAlone | internal/ffi/observer.go:127-134 | the same for an uninterrupted unregistration |
| ObserverRegistry.LookupAlone | internal/ffi/observer.go:141-151 | an uninterrupted lookup answers exactly whether the id is stored |
| ObserverRegistry.Contexts.Register | internal/ffi/observer.go:71-94 | stores a new active context under the next id |
| ObserverRegistry.Contexts.Unregister | internal/ffi/observer.go:127-161 | the context leaves the registry inactive and unpinned once; a second call changes nothing |
| ObserverRegistry.Contexts.Get | internal/ffi/observer.go:141-151 | finds a context exactly while it is stored |
| ObserverRegistry.Contexts.Callback | internal/ffi/observer.go:177-225 | a plain handler signals C exactly once, whether it returns or panics, if C has passed a signal function; an unknown id never does |
| ObserverRegistry.Contexts.RegisterWithC | internal/ffi/observer.go:259-310 | when C refuses, the registry is as before and the context has been unpinned |
| ObserverSignals.OneSignalForEachDelivery | internal/ffi/observer.go:177-225 | with a live context, deliveries minus signals is 1 from the delivery to the signal of a callback and 0 otherwise, also when the handler panics |
| ObserverSignals.QuietMeansCurrent | internal/ffi/dittoffi.h:1977-1983 | it never wedges: when nothing more can happen without a commit, the newest version has been delivered |
| ObserverSignals.EachStepBringsRest | internal/ffi/observer.go:177-225 | without commits every step brings the observer closer to rest, at most nine steps away |
| ObserverSignals.NeverAheadOfSignals | internal/ffi/dittoffi.h:4407-4415 | for every kind of handler C is at most one delivery ahead of the signals |
| ObserverSignals.SignallingHandlerMaySignalTwice | internal/ffi/observer.go:180-189 | a handler that signals and then panics has signalled twice for one delivery |
| LoginProviders.PresentWhileBalanced | internal/ffi/login_provider.go:48-70 | for every history, a provider is present if and only if it was not discarded and 1 + retains - releases stayed positive, and its count is that value |
| LoginProviders.GoneForGood | internal/ffi/login_provider.go:59-85 | a removed id never returns, so its callback is never looked up again |
| LoginProviders.AbsentBeforeCreation | internal/ffi/login_provider.go:95-108 | an id that was never drawn is absent |
| LoginProviders.Providers.Retain | internal/ffi/login_provider.go:48-56 | the table stays the one its whole history calls for: a known id is counted up, any other ignored |
| LoginProviders.Providers.Release | internal/ffi/login_provider.go:59-70 | the same for a release, which drops an id at zero |
| LoginProviders.Providers.Expiring | internal/ffi/login_provider.go:73-85 | after any history, finds the callback of exactly the ids that were drawn, never discarded, and kept up by their retains and releases ever since |
| LoginProviders.Providers.SetLoginProvider | internal/ffi/login_provider.go:95-127 | a provider that C could not make leaves the table as it was, any other is added with count 1 |
| HandleRelease.FreedExactlyOnce | internal/ffi/bindings.go:151-193 | with a finalizer or without, under any number of concurrent and repeated closes and the finalizer, the pointer is freed at most once, and once when a close has returned and none is under way |
| HandleRelease.DroppedHandleIsFinalized | internal/ffi/transaction.go:238-240 | a handle dropped without a close can be finalized, and its pointer freed on some continuation, if and only if it was made with a finalizer |
| HandleRelease.CloseAlone | internal/ffi/bindings.go:232-245 | an uninterrupted close is a run of the concurrent system to the state the object's method reaches |
| HandleRelease.Handle.Close | internal/ffi/bindings.go:169-182 | the first close frees the pointer and clears the finalizer, a later one changes nothing |
| ItemLock.NoUseAfterFree | ditto/query_result_item.go:172-203 | while C works on an item's pointer it has not been freed, and no step of anybody changes it |
| ItemLock.ItemFreedOnce | internal/ffi/bindings.go:982-1002 | an item's pointer is freed at most once, exactly once when closed; closed means no handle; the handle's finalizer never frees |
| ItemLock.CollectedItemIsFreed | ditto/query_result_item.go:42-45 | an item that was never closed is freed by its finalizer |
| ItemLock.ReadAlone | ditto/query_result_item.go:172-203 | an uninterrupted reading method has C work on the pointer if and only if the item is open |
| ItemLock.CloseAlone | ditto/query_result_item.go:282-300 | an uninterrupted Close leaves the item closed, without a handle, its pointer freed once, whatever came before |
| LazyItem.QueryResultItem.Value | ditto/query_result_item.go:83-103 | after any history, an open item's document is decoded from the CBOR in C's record, or marks the decoding error, and a closed item's is empty |
| LazyItem.QueryResultItem.IsMaterialized | ditto/query_result_item.go:109-113 | tells whether the history of calls has left a value in memory |
| LazyItem.QueryResultItem.Materialize | ditto/query_result_item.go:118-157 | loads the value, or the marker of a decoding error, unless closed or loaded |
| LazyItem.QueryResultItem.Dematerialize | ditto/query_result_item.go:160-164 | drops the value |
| LazyItem.QueryResultItem.CBORData | ditto/query_result_item.go:172-203 | after any history, the CBOR in C's record, or nothing if closed or missing |
| LazyItem.QueryResultItem.JSONData | ditto/query_result_item.go:209-240 | after any history, the JSON in C's record, or nothing if closed or missing |
| LazyItem.QueryResultItem.JSONString | ditto/query_result_item.go:245-276 | the same for JSON as a string |
| LazyItem.QueryResultItem.UnmarshalTo | ditto/query_result_item.go:54-73 | decodes C's record afresh, with the three kinds of error |
| LazyItem.QueryResultItem.Close | ditto/query_result_item.go:282-300 | C frees the record once, however often the item is closed |
| LazyItem.ItemHandle.Free | internal/ffi/bindings.go:983-997 | frees a valid handle once |
| LazyItem.RepliesAgree | ditto/query_result_item.go:83-276 | the replies of an open item fit together: Value and UnmarshalTo decode what CBORData returns, which is C's CBOR, and JSONString is what JSONData returns, which is C's JSON |
| LazyItem.HintsAreInvisible | ditto/query_result_item.go:118-165 | Materialize and Dematerialize change no reply except that of IsMaterialized, for every history |
| LazyItem.HeldExactly | ditto/query_result_item.go:109-126 | a value is held exactly when the item is open, C has one, and a loading call came after the last Dematerialize |
| QueryIteration.VisitsGiveEverythingBack | ditto/query_result.go:44-63 | for every loop body, an iteration has at most one of its items open, shows the body an open item, and has given back each exactly once at the end |
| QueryIteration.VisitIsUnique | ditto/query_result.go:44-63 | the visited indices are determined by the result and the body |
| QueryIteration.RetrievableAscends | ditto/query_result.go:102-123 | the retrievable indices are those within bounds that C can retrieve, in increasing order |
| QueryIteration.ResultClosedAtTheEnd | ditto/query_result.go:190-198 | a body that closes the result under the iterator does so at the last visit |
| QueryIteration.DiffGivesEverythingBack | ditto/differ.go:158-169 | a diff has exactly the retrievable items open while C reads them, and none afterwards |
| QueryIteration.QueryResult.Item | ditto/query_result.go:102-123 | an item for exactly the retrievable indices of an open result |
| QueryIteration.QueryResult.Items | ditto/query_result.go:44-63 | visits the longest prefix of the retrievable indices that the body allows, opening and closing each item around its visit |
| QueryIteration.QueryResult.ItemsAsSlice | ditto/query_result.go:71-81 | all retrievable items in order, open and distinct |
| QueryIteration.QueryResult.Values | ditto/query_result.go:84-90 | one document for each retrievable index, in order, each read from its open item, which is closed before the next is opened |
| QueryIteration.QueryResult.Close | ditto/query_result.go:190-198 | frees the result at most once |
| QueryIteration.DiffResult | ditto/differ.go:158-169 | diffs exactly the retrievable items in order, and closes all of them |
| DiffText.PrintingIsFaithful | ditto/differ.go:50-112 | for all diffs, nil ones included, the texts are equal if and only if Equal holds |
| DiffText.ParseInvertsText | ditto/differ.go:50-97 | an explicit reader gets every diff back from its text, up to nil against empty slices |
| DiffText.TextIsJoined | ditto/differ.go:50-97 | the text is the sections that are not empty, named and in this order, joined by single spaces: the flag needSpace does no more than that |
| DiffText.NoLeadingZeros | ditto/differ.go:28-30 | numbers are written without leading zeros |
| DiffText.ReadsMove | ditto/differ.go:28-30 | a move can be read back from its text, whatever follows it |
| DiffText.EqualExactly | ditto/differ.go:100-112 | Equal identifies exactly nil and empty slices |
| DiffText.String | ditto/differ.go:50-97 | the builder with its needSpace flag writes that text |
| DiffText.WriteMoves | ditto/differ.go:81-93 | the loop writes the moves with single spaces between them |
| DiffText.WriteIndices | ditto/differ.go:58-79 | a section of indices is written if it is not empty, after a space if there was one before |
| Benchmark.ExchangeSort | cmd/ditto-go-tools/tools/dqlcli.go:753-759 | the nested loops leave a sorted permutation |
| Benchmark.SortIsUnique | cmd/ditto-go-tools/tools/dqlcli.go:750-759 | there is only one sorted permutation |
| Benchmark.CalculateBenchmarkStats | cmd/ditto-go-tools/tools/dqlcli.go:739-809 | the fields are the order statistics, mean and deviation of the truncated milliseconds; all zero without samples |
| Benchmark.FieldsAreOrdered | cmd/ditto-go-tools/tools/dqlcli.go:761-808 | Min <= Median <= P95 <= P99 <= Max and Min <= Mean <= Max, and Min and Max are samples that bound all others |
| Benchmark.MedianIsInTheMiddle | cmd/ditto-go-tools/tools/dqlcli.go:770-774 | twice the median is the sum of the two middle samples, with no case on parity; at most half of the samples are below it and at most half above |
| Benchmark.MedianIsSymmetric | cmd/ditto-go-tools/tools/dqlcli.go:770-774 | negating every sample negates the median |
| Benchmark.MeanBalances | cmd/ditto-go-tools/tools/dqlcli.go:761-768 | the distances of the samples to the mean cancel |
| Benchmark.ErrorFromSquares | cmd/ditto-go-tools/tools/dqlcli.go:776-780 | the squared errors add up to the sum of squares less n times the square of the mean |
| Benchmark.MillisecondsTruncate | cmd/ditto-go-tools/tools/dqlcli.go:744-748 | a duration is its whole milliseconds and a rest below a millisecond on the same side of zero |
| Benchmark.RanksAreHundredths | cmd/ditto-go-tools/tools/dqlcli.go:790-792 | the ranks are 95 and 99 hundredths of the number of samples, rounded down |
| Benchmark.PercentilesAreTight | cmd/ditto-go-tools/tools/dqlcli.go:790-808 | no more samples than that rank are strictly below P95, and the same for P99 |
| Benchmark.PercentilesCover | cmd/ditto-go-tools/tools/dqlcli.go:790-808 | at least floor(0.95 n) + 1 samples are at most P95, and the same for P99 |
| Benchmark.OrderDoesNotMatter | cmd/ditto-go-tools/tools/dqlcli.go:739-809 | the statistics of some samples are those of every permutation of them |
| Benchmark.DescribedOnce | cmd/ditto-go-tools/tools/dqlcli.go:739-809 | the samples determine every field |
| Benchmark.PercentileIndices | cmd/ditto-go-tools/tools/dqlcli.go:790-798 | both clamps are never taken |
| Benchmark.DeviationZeroIffConstant | cmd/ditto-go-tools/tools/dqlcli.go:776-788 | the reported deviation is zero if and only if all samples are equal |
| Benchmark.DeviationNeverTooSmall | cmd/ditto-go-tools/tools/dqlcli.go:781-788 | its square is at least the sum of squared errors, so at least the sample variance |
| Benchmark.DeviationEquation | cmd/ditto-go-tools/tools/dqlcli.go:783-787 | the deviation multiplied out: 2 times it times the variance is 1 plus the squared errors times the square of the variance |
| Benchmark.DeviationExactWhen | cmd/ditto-go-tools/tools/dqlcli.go:781-788 | its square is the sample variance if and only if all samples are equal, or there are two whose squared errors add up to 1; otherwise it is above it |
| Benchmark.TwoDurationsNeverExact | cmd/ditto-go-tools/tools/dqlcli.go:744-748 | the squared errors of two whole numbers of milliseconds never add up to 1 |
| Benchmark.DeviationOf | cmd/ditto-go-tools/tools/dqlcli.go:776-788 | the loop and the two steps compute that deviation |
| Csv.RoundTrip | cmd/ditto-go-tools/tools/utils.go:127-195 | reading the text by section 2 of RFC 4180 with LF line ends gives back the table if and only if it has at least one column |
| Csv.FormatCSVOutput | cmd/ditto-go-tools/tools/utils.go:127-195 | no items give an empty text, the first item that does not parse gives its error, otherwise reading the text back shows the header and, for every item and key, the string, the JSON text, or nothing for null, unrenderable and absent values |
| Csv.HeaderIsUnique | cmd/ditto-go-tools/tools/utils.go:149-154 | the items determine the header: the strictly ascending union of their keys |
| Csv.SortStrings | cmd/ditto-go-tools/tools/utils.go:149-154 | the collected keys in strictly ascending order, none lost and none added |
| Csv.ParseItems | cmd/ditto-go-tools/tools/utils.go:132-147 | all items parsed and all their keys collected, or the first failure |
| Csv.RenderRow | cmd/ditto-go-tools/tools/utils.go:164-187 | one cell for each key: strings as they are, null, unrenderable and missing values empty, other values as JSON |
| Csv.StringsTellRowsApart | cmd/ditto-go-tools/tools/utils.go:170-171 | items that differ in a string have different rows |
| Csv.QuotedWhenNeeded | cmd/ditto-go-tools/tools/utils.go:156-162 | a field is written as it is unless a comma, a quote, a line break, a leading space or the end marker could mislead a reader, and in quotes then |
| Csv.WriteField | cmd/ditto-go-tools/tools/utils.go:156-162 | a field is quoted when it must be, with quotes doubled |
| DiskUsage.ParseDiskUsageChild | ditto/disk_usage.go:233-282 | the tree is what the nested map describes, at every depth |
| DiskUsage.ShapeAndOrder | ditto/disk_usage.go:264-279 | a tree has one node for each map, in the same order, with its keys split between fields and metadata |
| DiskUsage.FieldsMean | ditto/disk_usage.go:238-280 | each field against the entries: size_in_bytes before size, unsigned as it is, signed modulo 2^64, float without its fraction, zero if neither is a number; path, type and metadata likewise |
| DiskUsage.EveryNodeCounts | ditto/disk_usage.go:297-303 | the size of a tree is that of its root and of its subtrees, each counted once |
| DiskUsage.ReadsOneTree | ditto/disk_usage.go:233-282 | a map describes one tree only |
| DiskUsage.RoundTrip | ditto/disk_usage.go:233-282 | a tree can be read back from the map it would be written as if and only if no metadata uses the name of a field |
| DiskUsage.GetTotalSize | ditto/disk_usage.go:297-303 | the sum of all sizes in the tree modulo 2^64 |
| DiskUsage.FindByPath | ditto/disk_usage.go:308-318 | the first node in preorder with the path, or nothing if and only if there is none |

## Left out

- Everything behind C: DQL, sync, CRDT merges, the diff algorithm, CBOR and JSON codecs. They are the environment, or parameters.
- Calls.RegisterAlone: what a call returns to its caller, and the results of Subscriptions, IsClosed and IsCanceled, are not part of the interleaved model; Objects.dfy has the copy that Subscriptions hands out.
- StatusBroadcast.NoGapNoDuplicate: says how often each status arrives and not in which order, because each delivery is a goroutine of its own.
- Rendezvous.WaitsOnlyForC: a continuation that C frees without calling it leaves its caller waiting for ever, as in the code.
- TransactionProtocol.FinishedCalls: a begin that failed is not in the model, because Store.Transaction then returns its error and does nothing else.
- ObserverSignals.OneSignalForEachDelivery: assumes that C passes a signal function; the code does nothing when it is null.
- ObserverRegistry.Contexts.Callback: counts signals and does not say when a handler with the signal function sends them; contexts are entries of one map instead of objects of their own.
- ObserverContexts.NothingToFinalize: storing a context and setting its finalizer are one step; the log callbacks, which have the same shape, are not modelled.
- LazyItem.QueryResultItem.Value: the returned document is a value, so a caller that writes into the returned map, which is the cached one, is not modelled.
- QueryIteration.QueryResult.Values: documents are told apart by a number; LazyItem.dfy says how an item decodes its own.
- QueryIteration.DiffResult: the differ's own lock and the decoding of C's answer are a parameter; DiffItems on items that a caller may close meanwhile is not modelled.
- Benchmark.DeviationExactWhen: the reported deviation is not the square root of the variance; by how much it is above it, when it is, is not stated.
- Benchmark.CalculateBenchmarkStats: arithmetic is exact; floating-point rounding is not modelled, nor is the sum of times outside this function.
- Csv.WriteField: the quoting rules of Go's csv.Writer are those of its documentation, and encoding/csv is not part of this model; errors of an in-memory writer cannot happen. Go's own csv.Reader skips empty lines, which section 2 of RFC 4180 does not.
- DiskUsage.FindByPath: returns the node as a value and not its address, so equal nodes are not told apart.
- DiskUsage.ParseDiskUsageChild: a float outside the range of its target converts as the platform decides, which is a parameter.
- Objects.RegistrantList.CancelAll: Sync and Store share one class here; their loops are the same, and a cancelled observer stays in the store's list until Close.
- HandleRelease.FreedExactlyOnce: other functions load the Ditto handle's pointer without a lock; that such a call may overlap Close is not modelled.
- Calls whose locks are not the ones above: Store.Observers, TransactionWithResult's value, attachments, presence, transport configuration, Authenticator login and logout.
- Data races on plain fields, such as the read of `closed` at ditto/sync.go:43: memory is sequentially consistent. Id counters do not wrap.
- User callbacks are named by ids or numbers; what they compute is theirs.
- The text user interface, command line flags, logging, files, environment, examples and error-code tables: plumbing, or easy members only.
