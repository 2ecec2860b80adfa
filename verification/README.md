# Verified models of OONI's measurement engine

This project models in Dafny, and proves properties of, four parts of the engine that hold the most
state:

* **The HTTPS dialer** (`pkg/enginenetx`). `HappyEyeballs`, `Filter`, `MixPolicy`,
  `TestHelpersPolicy` and `Network` are the stream transformers and the policies composed from them,
  over sequences; `TacticNet` is the tree of goroutines that runs them, as a step relation, and shows
  that timing does not matter; `HttpsDialer` is the protocol of the 16 workers and the parent around
  such a tree, `DialResults` reads results, closed connections and callbacks off the steps of a dial,
  `DialOrder` shows in which order it takes tactics whatever is canceled when, and `DialClock` adds a
  clock and the delays; `Tactics` and `SummaryKeys` are the tactics and the strings that identify them.
  `StatsManager` is the container of statistics that the dialer's events update and that a background
  trimmer rewrites, `StatsTactics` the sorting of its records, `StatsPrune` what pruning keeps, and
  `StatsRuns` and `StatsCounts` its runs, fed by any number of concurrent dials. `PolicyCases` says
  what each composition of policies schedules.
* **Overlapped calls and the streaming reader** (`pkg/httpclientx`, `pkg/netxlite`). `Overlapped` is
  the select loop as a method over arbitrary schedules, `Iox` a step relation of a producer and a
  consumer with unbuffered sends.
* **The minipipeline** (`pkg/minipipeline`). `Containers` loads events into observations on the heap,
  updated in place; `Observations` is what each event contributes, and `IngestedFields` what all of
  them amount to; `Linear` and `Analysis` sort and classify them, and `AnalysisMeaning` says by which
  fields; `Sets` and `DnsDiff` are what they rest on. Map iteration takes an arbitrary element
  at a time, so each result proved about such a loop holds for every iteration order.
* **The session resolver** (`pkg/engineresolver`). `Resolver` is the persisted ranking, and
  `ResolverMeaning` what a lookup does to it.

`Optional` and `StableSort` are shared. A goroutine is a component of a state, a channel that is read
as a stream is a sequence, an unbuffered send is a joint step of sender and receiver, an assertion of
the program is a proof obligation, and a clock reading, a random draw or the outcome of a network
operation is a parameter or a free choice of the run. Scores and rates are reals, times integers.

The code was followed where its documentation says something else:

* The sort of statistics compares success rate, then number of successes, then last update
  (`pkg/enginenetx/statsmanager.go:150-161`); the comment above it puts the last update second. Each
  of the three is looked at even when an earlier one favours the other record, which makes the
  comparator inconsistent.
* `Map` of the overlapped calls still starts the remaining endpoints after a success, one for each
  collected result, under a context that is canceled (`pkg/httpclientx/overlapped.go:150-160`).
* The linear analysis documents three sorting criteria and has a fourth, the transaction
  (`pkg/minipipeline/analysis.go:83-95`).
* The streaming reader documents that its goroutine exits as soon as the context is done
  (`pkg/netxlite/iox.go:79-84`); it does so when it next has data or an error.

`dafny verify dfyconfig.toml` checks everything.

## Model

| member | source | states |
|---|---|---|
| HappyEyeballs.DelayIsDocumentedExactlyUntilOverflow | pkg/enginenetx/happyeyeballs.go:21-33 | for every non-negative index the computed int64 delay is the documented one (0, 1, 2, 4, 8, 16 seconds and then 8 more for each) if and only if the index is at most 1152921507 |
| HappyEyeballs.DelaysStrictlyIncrease | pkg/enginenetx/happyeyeballs.go:21-33 | up to that index the delays increase strictly, so no two tactics are due at the same time |
| HappyEyeballs.DelayAfterTheLastExactIndexIsNegative | pkg/enginenetx/happyeyeballs.go:21-33 | at the next index the multiplication wraps around and the delay is negative: such a tactic would be due at once |
| SummaryKeys.SummaryKeyInjective | pkg/enginenetx/httpsdialer.go:76-90 | two tactics with safe fields have equal summary keys iff address, port, server name and verify host name are equal, so deduplication and statistics never merge them; safe says only where the separators "]:", " sni=" and " verify=" must not occur |
| SummaryKeys.KeyIsSafeExactly | pkg/enginenetx/httpsdialer.go:76-90 | and safe is exact: a tactic has safe fields iff no other safe tactic has its summary key, so every unsafe one shares its key with a safe one that differs |
| SummaryKeys.PlainFieldsAreSafe | pkg/enginenetx/httpsdialer.go:76-90 | fields are safe when address, port and server name have no space and the port no colon, as for names, addresses and numbers |
| SummaryKeys.KeysThatCollide | pkg/enginenetx/httpsdialer.go:76-90 | inputs that collide: three pairs of different tactics with one key, for a marker in the server name, in the port and in the address |
| SummaryKeys.JoinHostPortInjective | pkg/enginenetx/httpsdialer.go:86-90 | two joined endpoints are equal iff host and port are, also for hosts that need quoting, unless a port contains "]:" while its host is quoted or starts with a bracket |
| SummaryKeys.EndpointIsSafeExactly | pkg/enginenetx/httpsdialer.go:86-90 | that condition is exact: an endpoint meets it iff no other endpoint that meets it has its joined string |
| SummaryKeys.PortWithBracketCollides | pkg/enginenetx/httpsdialer.go:86-90 | every port that contains "]:" is ambiguous: some host with it joins to the same string as another host with a port free of it |
| Tactics.HttpsDialerTactic.Clone | pkg/enginenetx/httpsdialer.go:43-51 | a clone is a new object with the same fields |
| Filter.FirstPositionsMeaning | pkg/enginenetx/filter.go:24-49 | the positions kept are exactly, and in order, those where a key occurs for the first time |
| Filter.FilterEmitsFirstOccurrences | pkg/enginenetx/httpsdialer.go:299-301 | the filter pipeline emits the first occurrence of each key among the non-nil inputs, in order, each with the delay of its output position and otherwise unchanged |
| Filter.FilteredKeysAreDistinct | pkg/enginenetx/filter.go:24-49 | no two emitted tactics have one key |
| Filter.FilterSchedulesAtOrBefore | pkg/enginenetx/filter.go:24-76 | the key of the i-th non-nil input is emitted at position at most i |
| Filter.FilterOutNilTactics | pkg/enginenetx/filter.go:7-19 | the loop over tactic objects emits the non-nil ones, the same objects in the same order |
| Filter.FilterOnlyKeepUniqueTactics | pkg/enginenetx/filter.go:24-49 | the loop with its map of seen keys emits exactly the first occurrences |
| Filter.FilterAssignInitialDelays | pkg/enginenetx/filter.go:54-76 | rewriting delays in place emits each tactic with the delay of its position and otherwise unchanged; a tactic that comes more than once ends with the delay of its last position |
| Filter.HttpsDialerFilterTactics | pkg/enginenetx/httpsdialer.go:299-301 | the three loops composed refine the pure pipeline |
| MixPolicy.InterleavePlacement | pkg/enginenetx/mixpolicy.go:76-104 | with batches of N = max(1, factor), primary element i lands at i + min(N*(i/N), |F|) and fallback element j at j + min(N*(j/N + 1), |P|), whatever the lengths |
| MixPolicy.InterleaveConserves | pkg/enginenetx/mixpolicy.go:76-104 | interleaving loses and duplicates nothing |
| MixPolicy.MaybeTakeN | pkg/enginenetx/mixpolicy.go:106-133 | takes at most N elements, drops a channel that is closed, and its uint8 loop ends for every factor, 255 included |
| MixPolicy.MixPolicyInterleaveLookupTactics | pkg/enginenetx/mixpolicy.go:76-104 | the loop over two channels emits the interleaving |
| MixPolicy.MixPolicyEitherOrLookupTactics | pkg/enginenetx/mixpolicy.go:27-54 | emits the primary tactics, or the fallback ones exactly when there is no primary one |
| TestHelpersPolicy.LookupTacticsMeaning | pkg/enginenetx/testhelperspolicy.go:29-71 | the output is the child's tactics followed by one tactic for each test-helper tactic and each server name, and by nothing else |
| TestHelpersPolicy.TestHelpersPolicyLookupTactics | pkg/enginenetx/testhelperspolicy.go:29-71 | the loops with the list of tactics to extend emit exactly that |
| Network.DnsTacticsAreTriedEarly | pkg/enginenetx/network.go:157-178 | through both interleavings, deduplication and delays, the i-th DNS tactic's key is tried with delay at most that of index i + 3*(i/3), whatever the other policies yield |
| Network.StatsTacticsAreTriedEarly | pkg/enginenetx/network.go:157-178 | the nested bound for the k-th tactic known from statistics |
| Network.BridgesAreTriedEarly | pkg/enginenetx/network.go:157-178 | the nested bound for the b-th bridge |
| PolicyCases.UserTacticsReplaceAllOthers | pkg/enginenetx/network.go:180-195 | without a proxy, and when the user has a tactic for the endpoint, what is scheduled are the first occurrences of exactly the user's tactics, in the user's order with the delays of their positions |
| PolicyCases.ProxySchedulesTheAddresses | pkg/enginenetx/network.go:144-155 | with a proxy it is one tactic for each key of the resolved addresses, with server name and verify name equal to the domain, whatever the user has |
| PolicyCases.ComposedSchedulesAllSources | pkg/enginenetx/network.go:157-195 | otherwise the scheduled keys are exactly those of the resolved addresses, also with the further server names when the domain is a test helper's, of the statistics, and for api.ooni.io of the bridges; each once |
| PolicyCases.BridgesAreForOneDomain | pkg/enginenetx/network.go:157-178 | for any other domain the bridges make no difference, whatever the policy |
| PolicyCases.FilterTakesFirst | pkg/enginenetx/filter.go:7-76 | the filters keep, of any list with nil entries, the first tactic of each key in order, and change only the delay |
| TacticNet.InternalKeepsFlow | pkg/enginenetx/mixpolicy.go:76-133 | each step of each goroutine of the policies and filters leaves the stream still to be emitted unchanged, until the context is canceled |
| TacticNet.ScheduleDoesNotMatter | pkg/enginenetx/mixpolicy.go:76-133 | whatever the interleaving of the goroutines, what was received followed by what is to come is the same stream |
| TacticNet.StartFlow | pkg/enginenetx/network.go:144-195 | the goroutines of a policy, when started, have to emit exactly what the policy is defined to emit |
| TacticNet.FilteredFlow | pkg/enginenetx/httpsdialer.go:299-301 | the same through the three filters, against the pure pipeline |
| TacticNet.PolicyChainDelivers | pkg/enginenetx/network.go:144-195 | a run of the whole chain that ends has delivered exactly the scheduled tactics |
| TacticNet.NetNeverStuck | pkg/enginenetx/mixpolicy.go:76-133 | a chain that is neither closed nor offering a tactic has a goroutine that can step: no goroutine is left blocked |
| TacticNet.InternalDecreasesWork | pkg/enginenetx/mixpolicy.go:76-133 | every internal step decreases a measure, also after cancellation |
| TacticNet.ClosedNetHasStopped | pkg/enginenetx/mixpolicy.go:76-133 | once the output channel is closed all goroutines below it have returned |
| HttpsDialer.HttpsDialerReduceResult | pkg/enginenetx/httpsdialer.go:305-319 | returns the first connection and closes all others, else the joined errors, else no answer |
| HttpsDialer.StepKeepsInv | pkg/enginenetx/httpsdialer.go:200-257 | every step of the 16 workers, the emitter chain and the parent keeps the invariant about connections, tactics, events and the stream |
| HttpsDialer.ConnectionsAreReturnedOrClosed | pkg/enginenetx/httpsdialer.go:200-257 | in every run, on return every connection ever opened was closed once, except the returned one, which was not |
| HttpsDialer.EveryTacticIsReportedOnce | pkg/enginenetx/httpsdialer.go:325-347 | on return each emitted tactic has given exactly one collected result, and each started dial exactly one final event |
| HttpsDialer.ResultIsFirstSuccess | pkg/enginenetx/httpsdialer.go:228-257 | the outcome is the first success that was collected, else all errors in order; no answer is returned iff no tactic was received |
| HttpsDialer.FailureMeansEverythingWasTried | pkg/enginenetx/httpsdialer.go:228-257 | without external cancellation a failure means that the whole filtered stream was tried, and no answer that it was empty |
| HttpsDialer.PolicyDial | pkg/enginenetx/httpsdialer.go:200-257 | the same for the composed policies: failing means that exactly the scheduled tactics were tried |
| DialOrder.GuardedStep | pkg/enginenetx/dnspolicy.go:30-65 | before the DNS policy starts, a step of the policies is one that cancellation does not affect, or that start itself, which then gives the stream without addresses at worst; nothing is offered before it |
| DialOrder.TacticsAreTakenInOrder | pkg/enginenetx/httpsdialer.go:200-257 | at any moment of any dial with the composed policies, successful ones included, the tactics taken are the first of the scheduled ones in their order; only when the caller canceled they may be those of the schedule without addresses |
| DialOrder.DnsTacticsAreTakenEarly | pkg/enginenetx/network.go:157-178 | so in every dial that the caller does not cancel and that takes so many tactics, the i-th DNS tactic's key is among the first i + 3*(i/3) + 1 that are taken |
| DialClock.TimedDialIsDial | pkg/enginenetx/httpsdialer.go:259-287 | every moment of a dial with a clock, a shared zero time and timers is one of a dial without them, so all theorems about dials hold of it |
| DialClock.DelaysAreHonoured | pkg/enginenetx/httpsdialer.go:425-449 | every announced dial is of the tactic that was taken as the k-th one, for some k, and was announced no earlier than the k-th happy-eyeballs delay after the zero time |
| DialClock.FewAreAnnouncedEarly | pkg/enginenetx/httpsdialer.go:425-449 | until a time d after the zero time at most as many dials are announced as tactics were taken with delays up to d; before the n-th delay at most n |
| DialClock.TimedDialNeverStuck | pkg/enginenetx/httpsdialer.go:425-449 | until the call has returned some step is possible, and time has to pass only while some worker sleeps |
| DialClock.TimedDialEnds | pkg/enginenetx/httpsdialer.go:425-449 | whatever the waits, the number of steps other than the clock's is bounded from the start |
| HttpsDialer.DialNeverStuck | pkg/enginenetx/httpsdialer.go:222-254 | until the call has returned some step is enabled: no deadlock on the collector, the joiner or the emitter |
| HttpsDialer.StepDecreasesMeasure | pkg/enginenetx/httpsdialer.go:222-254 | every step decreases a measure of the chain's work, the workers' phases and the unjoined workers |
| HttpsDialer.DialEnds | pkg/enginenetx/httpsdialer.go:222-254 | hence every run has a bounded number of steps |
| HttpsDialer.NothingRunsAfterReturn | pkg/enginenetx/httpsdialer.go:228-257 | once the call has returned no step is possible: all workers and policy goroutines are gone |
| DialResults.ReturnedConnectionIsVerified | pkg/enginenetx/httpsdialer.go:350-423 | a dial returns no connection but one that some worker opened, shook hands on and verified, in this order and all for one tactic that it took and announced before |
| DialResults.ResultsAreVerdicts | pkg/enginenetx/httpsdialer.go:325-423 | on return the collected results are those of the steps that ended dials, each once: a failure with the error of the step that failed, a success with the connection that was verified |
| DialResults.FailuresAreCollected | pkg/enginenetx/httpsdialer.go:325-347 | each step that ends a dial comes to a result that is collected later with the step's own error, and its worker does nothing in between |
| DialResults.ClosedAreFailedOrUnused | pkg/enginenetx/httpsdialer.go:388-417 | the closed connections are, in order, those of failed handshakes and verifications when they failed and, on return, all but the first that was collected; and the callbacks are, in order, those of the steps: each failure reports its own kind, connect and handshake errors as interrupts iff the context was done |
| DialResults.ContextIsDoneExactly | pkg/enginenetx/httpsdialer.go:228-254 | until the return the context is done iff the caller canceled or a connection was collected |
| DialResults.GivesUpOnlyWhenDone | pkg/enginenetx/httpsdialer.go:428-449 | only then does a worker give up waiting for the delay of its tactic |
| DialResults.FailureMeansEverythingWasDialed | pkg/enginenetx/httpsdialer.go:228-257 | unless the caller cancels, a dial without a connection has announced every tactic that it took and seen it fail |
| StableSort.InsertionSort | pkg/enginenetx/statsmanager.go:150-161 | the in-place sort, which Go uses for up to 20 elements, computes the functional insertion sort for any comparator |
| StableSort.SortPermutes | pkg/enginenetx/statsmanager.go:150-161 | for any comparator, consistent or not, the result is a permutation |
| StableSort.SortSorts | pkg/minipipeline/analysis.go:55-96 | for a strict weak order the result is sorted |
| StableSort.SortIsStableAt | pkg/minipipeline/analysis.go:55-96 | and equivalent elements keep their order |
| StableSort.StableSortingIsUnique | pkg/minipipeline/analysis.go:55-96 | there is one stable way to sort: any stable algorithm gives this result |
| StatsTactics.SortsExactlyWithoutConflict | pkg/enginenetx/statsmanager.go:136-171 | sorting yields a list in which no record beats an earlier one iff no two of the records beat each other: exactly when the comparator fits the input |
| StatsTactics.SortedByRate | pkg/enginenetx/statsmanager.go:136-171 | without such a conflict the result, of any length, descends in success rate, in number of successes and in time of update |
| StatsTactics.SortedRanksDoNotDependOnOrder | pkg/enginenetx/statsmanager.go:136-171 | and is the same, up to records equal in all three, for every iteration order of the map |
| StatsTactics.ComparatorIsInconsistent | pkg/enginenetx/statsmanager.go:150-161 | conflicts exist: two records each beat the other, and sorting two orders of them gives two results |
| StatsTactics.SortAndAccept | pkg/enginenetx/statsmanager.go:136-171 | nil entries are skipped, and the rest is sorted and then filtered by the predicate |
| StatsTactics.SortedAndAcceptedKeepsAccepted | pkg/enginenetx/statsmanager.go:136-171 | it keeps exactly the accepted records, each as often as it was there |
| StatsTactics.StatsPolicyFilterStatsTactics | pkg/enginenetx/statspolicy.go:36-56 | the tactics of the sorted well-formed records that have succeeded; nothing when the lookup was not good |
| StatsTactics.SuccessesGiveTactics | pkg/enginenetx/statspolicy.go:36-56 | these are exactly the successful records, each as often as it was there, and each gives its tactic |
| StatsManager.StatsDomainEndpointPruneEntries | pkg/enginenetx/statsmanager.go:223-275 | pruning one domain gives what some iteration order of its map allows, and never dereferences nil |
| StatsManager.StatsContainerPruneEntries | pkg/enginenetx/statsmanager.go:292-313 | pruning any decoded container, nil entries and empty or wrong keys included, with a clock reading for each domain |
| StatsManager.PruneMeaning | pkg/enginenetx/statsmanager.go:292-313 | after a prune nothing is nil; each domain has 1 to 10 records, each under a week old, under its tactic's own key and equal to an earlier record; a domain is kept iff it has a well-formed fresh record |
| StatsManager.PruneIsIdempotent | pkg/enginenetx/statsmanager.go:223-313 | pruning again with the same clock readings changes nothing, whatever the iteration orders and however records are sorted |
| StatsManager.PruneKeepsTheBest | pkg/enginenetx/statsmanager.go:223-275 | when no two well-formed records of a domain beat each other, a fresh record that is dropped beats none that is kept, unless one with its own key is kept |
| StatsPrune.PruneKeepsTenOfTheWeek | pkg/enginenetx/statsmanager.go:223-313 | in plain numbers: of each domain with a name at most ten entries, under 604800 seconds old, each as it was and under its tactic's key; a domain is kept iff it has such an entry; and when all entries are under their own keys such an entry is dropped only if ten are kept |
| StatsManager.PruneKeepsOrRemoves | pkg/enginenetx/statsmanager.go:223-313 | in a well-formed container a record is kept under its key unchanged or removed |
| StatsManager.LoadStatsContainer | pkg/enginenetx/statsmanager.go:398-426 | loading succeeds iff something decodable of version 5 is stored, and prunes it |
| StatsManager.HandleKeepsWellFormed | pkg/enginenetx/statsmanager.go:464-588 | every event keeps the container well formed, so no later access dereferences nil |
| StatsManager.CountedConserves | pkg/enginenetx/statsmanager.go:464-588 | a start adds one to, and any end takes one from, started less ended dials; each error counter stays equal to the sum of its histogram |
| StatsRuns.StartedDialsAreAccountedFor | pkg/enginenetx/statsmanager.go:464-642 | in every run of events of concurrent dials and trims, for every record that was created and as long as it is there: started dials plus those that were in flight when it was created = successes + three errors + two interrupts + in flight; so started dials are accounted for iff none of its key was in flight when it was created |
| StatsRuns.LoadedRecordsAreBalanced | pkg/enginenetx/statsmanager.go:464-642 | likewise for every record that was loaded, up to the excess that it was loaded with |
| StatsRuns.RateAboveOneNeedsDialsInFlight | pkg/enginenetx/statsmanager.go:136-171 | a record that was not loaded has a success rate above one only if, when it was created, more dials of its key were in flight than are now |
| StatsRuns.RateCanPassOne | pkg/enginenetx/statsmanager.go:464-642 | and this happens: for every tactic there is a run, with a trim of a stale record while two dials are in flight, after which the success rate is two |
| StatsRuns.DialEventsCanAct | pkg/enginenetx/httpsdialer.go:325-347 | in a system of dials the dialer ends only dials it started: what the runs of the statistics assume of events holds of the dialer |
| StatsRuns.SharedStatisticsAreBalanced | pkg/enginenetx/httpsdialer.go:200-257 | concurrent dials that share one manager, with trims at any moment: a created record has counted exactly the dials that ended and those that workers have in flight, less those in flight when it was created; once all dials have returned it is balanced iff there were none, and otherwise has more ended dials than started ones |
| StatsRuns.SharedLoadedRecordsAreBalanced | pkg/enginenetx/httpsdialer.go:200-257 | likewise for a loaded record, which has the excess that it was loaded with again once all dials have returned |
| StatsRuns.HistogramsStayMatched | pkg/enginenetx/statsmanager.go:464-642 | events and trims keep every error counter equal to the sum of its histogram |
| StatsCounts.CountersCountEvents | pkg/enginenetx/statsmanager.go:464-588 | in every run, each of the seven counters of a created record is the number of events of its kind and key since then, split by interrupts; each histogram entry is the number of errors with that text; the time is that of the last event; the tactic is the one whose start created it |
| StatsCounts.LoadedRecordsCountEvents | pkg/enginenetx/statsmanager.go:464-588 | likewise for a loaded record, on top of what it was loaded with |
| StatsCounts.SharedCountersCountSteps | pkg/enginenetx/httpsdialer.go:350-423 | for concurrent dials that share a manager, the counters of a created record are the numbers of announcements, failures of each kind and verifications that all dials have come to since then for tactics of its key, and the histograms those with each error |
| StatsCounts.SuccessesAreSuggested | pkg/enginenetx/statspolicy.go:30-56 | a created record in which a success was counted makes the policy suggest a tactic with its key for the host name and port of the tactic that succeeded |
| StatsManager.StatsManager.constructor | pkg/enginenetx/statsmanager.go:429-460 | starts from the pruned stored container, or from an empty one when that has the wrong version or is missing |
| StatsManager.StatsManager.GetStatsTacticLocked | pkg/enginenetx/statsmanager.go:320-327 | the record of a tactic; found implies not nil |
| StatsManager.StatsManager.SetStatsTacticLocked | pkg/enginenetx/statsmanager.go:332-349 | stores a record under the tactic's keys and changes no other |
| StatsManager.StatsManager.OnStarting | pkg/enginenetx/statsmanager.go:464-492 | counts the start, creating the record at need, sets its time, and changes nothing else |
| StatsManager.StatsManager.OnTCPConnectError | pkg/enginenetx/statsmanager.go:503-525 | adds one to the interrupts when the context is done, else to the connect errors and to the histogram entry of the error; sets the time; changes nothing else, and nothing at all without a record |
| StatsManager.StatsManager.OnTLSHandshakeError | pkg/enginenetx/statsmanager.go:528-550 | likewise for handshakes |
| StatsManager.StatsManager.OnTLSVerifyError | pkg/enginenetx/statsmanager.go:553-570 | likewise for verification errors, which are no interrupts |
| StatsManager.StatsManager.OnSuccess | pkg/enginenetx/statsmanager.go:573-588 | adds one to the successes, sets the time, and changes nothing else |
| StatsManager.StatsManager.TrimOnce | pkg/enginenetx/statsmanager.go:615-642 | while the manager is open a trim replaces the container by a pruned one |
| StatsManager.StatsManager.Close | pkg/enginenetx/statsmanager.go:591-612 | the first call stores a pruned, well-formed copy, or gives the store's error and stores nothing, and ends the trimmer; later calls do nothing and give no error |
| StatsManager.StatsManager.LookupTactics | pkg/enginenetx/statsmanager.go:646-673 | a list with each record of the endpoint once, good iff not empty |
| StatsManager.StatsPolicyV2LookupTactics | pkg/enginenetx/statspolicy.go:30-56 | suggests exactly the tactics of records that are kept for the endpoint and have succeeded |
| Overlapped.Map | pkg/httpclientx/overlapped.go:123-190 | in every schedule each endpoint is started once, in order, at most one between two waits; each waiting has a call in flight; the context is canceled from the first collected success on; each result is collected once under its own index; the loop ends in spite of leftover ticks and nothing is in flight at the end |
| Overlapped.OverlappedReduce | pkg/httpclientx/overlapped.go:198-221 | the first success by arrival with its value and index, else all errors in order, or the generic failure when there is no result |
| Overlapped.Run | pkg/httpclientx/overlapped.go:99-101 | fails iff no endpoint succeeds, and otherwise returns the value and index of the success that arrived first |
| Overlapped.InFlightCount | pkg/httpclientx/overlapped.go:144-186 | calls in flight are the started less the collected ones |
| Overlapped.ConformsMeans | pkg/httpclientx/overlapped.go:123-190 | in such a schedule no two calls are started in a row, a call is started under a canceled context iff a successful call was collected before, each call is collected at most once and after its start, and waiting is only for calls in flight |
| Iox.StreamResult | pkg/netxlite/iox.go:108-181 | in every run the result is an in-order prefix of what was read: all up to end of file for a nil error, all up to and including what came with the reader's error, else the context's error |
| Iox.ReturnsAllButLast | pkg/netxlite/iox.go:157-181 | whenever the caller returns, also when its context is done, the result is everything read until then but possibly the last read |
| Iox.UninterruptedResult | pkg/netxlite/iox.go:108-181 | without interruption result and error do not depend on the schedule |
| Iox.NeverStuck | pkg/netxlite/iox.go:108-181 | until the caller returned and the goroutine exited something can happen without help from the caller's context |
| Iox.RunsEnd | pkg/netxlite/iox.go:108-181 | if the reader fails or ends with its n-th read every run has at most 4n + 3 steps |
| Iox.GoroutineIsReleased | pkg/netxlite/iox.go:115-155 | after the caller returned, the goroutine exits after a bounded number of steps: those up to the next read with data or an error, and at once if it is sending |
| Iox.ReadingGoroutineCanExitExactly | pkg/netxlite/iox.go:115-155 | after the caller returned, a goroutine that is reading can still exit iff some later read has data or an error, because the context is not looked at between reads that have neither |
| Iox.QuietReaderKeepsReading | pkg/netxlite/iox.go:115-155 | while reads stay quiet it keeps reading, on every schedule |
| Iox.QuietReaderIsNeverReleased | pkg/netxlite/iox.go:115-155 | and this happens: for a reader that is always quiet there are runs of any length that go on reading after the caller returned |
| Sets.StringLessIsTotalOrder | pkg/minipipeline/set.go:50-59 | the order of strings is a total order |
| Sets.StringLessMeaning | pkg/minipipeline/set.go:50-59 | a string is less iff at the first difference it ends or has the smaller character |
| Sets.SortedKeysAreUnique | pkg/minipipeline/set.go:50-59 | strictly increasing keys are determined by the set, so they do not depend on map iteration |
| Sets.SortedKeys | pkg/minipipeline/set.go:50-59 | lists exactly the elements in strictly increasing order |
| Sets.Set.Add | pkg/minipipeline/set.go:28-35 | adds the keys and nothing else |
| Sets.Set.Remove | pkg/minipipeline/set.go:43-47 | removes the keys and nothing else |
| Sets.Set.Keys | pkg/minipipeline/set.go:50-59 | lists exactly the elements in strictly increasing order |
| DnsDiff.FindCommonIPAddressIntersection | pkg/minipipeline/dnsdiff.go:7-31 | the bit flags compute the intersection, without the empty string |
| DnsDiff.FindCommonASNsIntersection | pkg/minipipeline/dnsdiff.go:35-64 | the bit flags compute the intersection of the positive system numbers of both sides |
| Containers.WebObservationsContainer.IngestDNSLookupFailures | pkg/minipipeline/observation.go:321-345 | appends one new observation for each failed lookup, in order |
| Containers.WebObservationsContainer.IngestDNSLookupSuccesses | pkg/minipipeline/observation.go:347-385 | appends one new observation for each address of each successful lookup, sorted within a lookup, and every address leads to the first lookup that resolved it |
| Containers.WebObservationsContainer.IngestTCPConnectEvents | pkg/minipipeline/observation.go:389-432 | puts a new endpoint under the transaction, made from the first lookup of the address; the lookups are not touched |
| Containers.WebObservationsContainer.IngestTLSHandshakeEvents | pkg/minipipeline/observation.go:437-452 | updates in place the endpoint of the transaction, if there is one, and no other object |
| Containers.WebObservationsContainer.IngestHTTPRoundTripEvents | pkg/minipipeline/observation.go:456-482 | likewise, with the response only in case of success |
| Containers.WebObservationsContainer.ControlXrefDNSQueries | pkg/minipipeline/observation.go:504-526 | gives exactly the lookups of the control's domain the control's failure and, iff that succeeded, its addresses; everything else stays; unwrapping the domains is safe |
| Containers.WebObservationsContainer.ControlMatchDNSLookupResults | pkg/minipipeline/observation.go:528-570 | in every iteration order, an endpoint without a domain whose address the control resolved gets its origin and the control's lookup, one of the control's domain is treated like a lookup, and the others stay |
| Containers.WebObservationsContainer.ControlXrefTCPIPFailures | pkg/minipipeline/observation.go:572-585 | in every iteration order, exactly the endpoints to which the control connected get its failure, empty for a success |
| Containers.WebObservationsContainer.ControlXrefTLSFailures | pkg/minipipeline/observation.go:587-613 | likewise exactly the handshakes that the control did too with the same server name |
| Containers.WebObservationsContainer.ControlSetHTTPFinalResponseExpectation | pkg/minipipeline/observation.go:615-648 | every lookup and endpoint gets the failure of the control's final response and, iff there is none, what the response was; so do the expectations |
| Containers.WebObservationsContainer.IngestControlMessages | pkg/minipipeline/observation.go:488-502 | fails without effect iff the URL does not parse, and composes the passes otherwise; no two places come to share an object and every address still leads to its first lookup, so loading may go on |
| Containers.IngestedIsValid | pkg/minipipeline/observation.go:315-482 | after any sequence of loading calls, in any order, every endpoint is under its own transaction with its addresses, every failure is the one named by the type, every lookup has its fields: unwrapping is safe |
| Containers.LookupsAreNeverAltered | pkg/minipipeline/observation.go:389-482 | endpoint events leave every lookup as it is, and the control never changes what the probe measured |
| Containers.KnownIsFirst | pkg/minipipeline/observation.go:375-405 | the object found for an address holds the first lookup that resolved it |
| Containers.IngestWebMeasurement | pkg/minipipeline/observation.go:25-48 | fails iff there are no test keys or the control's URL does not parse; otherwise gives a valid container with what the five calls yield |
| IngestedFields.EndpointsShowEvents | pkg/minipipeline/observation.go:389-482 | loading a measurement gives an endpoint for each transaction that connected, showing field by field its last connect, last handshake, last round trip and last response, the first lookup of its address, and the failure of the furthest operation |
| IngestedFields.LookupsShowEvents | pkg/minipipeline/observation.go:321-385 | and a lookup for each failed query, in order, and for each address of each other query, with its fields |
| IngestedFields.ControlIsCompared | pkg/minipipeline/observation.go:488-648 | the control's messages change of each lookup and each endpoint exactly the named fields: the control's lookup iff the domain is the same or, for an endpoint without one, the control resolved its address; the connect and handshake of the same endpoint and server name; the final response of everything |
| Observations.ControlKeepsProbePart | pkg/minipipeline/observation.go:504-648 | the control's passes keep every field of the probe |
| Linear.LessIsStrictWeakOrder | pkg/minipipeline/analysis.go:55-96 | the comparator by depth, type, failure and transaction is a strict weak order |
| Linear.LinearAnalysisIsDeterministic | pkg/minipipeline/analysis.go:46-98 | two iteration orders of the endpoints give the same sorted sequence |
| Linear.LinearOrder | pkg/minipipeline/analysis.go:20-45 | later redirects first, then more complex operations, then failures in order (successes first), then later transactions |
| Linear.NothingIsOutOfOrder | pkg/minipipeline/analysis.go:55-96 | no observation comes before a deeper one, before a later operation of its depth, before an earlier failure among those, or before a later transaction with the same failure |
| Linear.NewLinearWebAnalysis | pkg/minipipeline/analysis.go:46-98 | computes that sequence for all iteration orders |
| Linear.LinearizedPermutes | pkg/minipipeline/analysis.go:46-53 | the sequence is a permutation of all lookups and endpoints |
| Analysis.DnsMembers | pkg/minipipeline/analysis.go:272-322 | a transaction is in a DNS set iff its first lookup is of that kind |
| AnalysisMeaning.SuccessSetsMean | pkg/minipipeline/analysis.go:272-383 | by fields of the first lookup of a transaction: it counts iff it is of the initial request; it is valid iff moreover the control has addresses and some non-empty address is in both sets or two are in one system of positive number, and invalid iff the control has addresses without that; it is a bogon iff its address is |
| AnalysisMeaning.FailureSetsMean | pkg/minipipeline/analysis.go:385-474 | likewise for failed lookups: expected iff the control failed too or neither has an answer, unexpected iff the control succeeded otherwise, unexplained iff in a redirect, leaving out DNS over HTTPS and missing AAAA records |
| AnalysisMeaning.ExperimentFailureMeans | pkg/minipipeline/analysis.go:385-474 | the experiment's failure is that of the first such lookup of the initial request |
| AnalysisMeaning.WithoutLookups | pkg/minipipeline/analysis.go:272-474 | a transaction without lookups is in none of those sets |
| AnalysisMeaning.ConfirmedMeans | pkg/minipipeline/analysis.go:324-341 | the lookups confirmed by TLS are those of endpoints whose handshake succeeded |
| AnalysisMeaning.EndpointSetsMean | pkg/minipipeline/analysis.go:476-630 | by fields of the endpoint: which connects, handshakes and round trips are expected, unexpected and unexplained failures, for each tag |
| Analysis.WebAnalysis.DnsComputeSuccessMetrics | pkg/minipipeline/analysis.go:272-341 | the strict sets: valid and invalid lookups after successful TLS handshakes were taken into account |
| Analysis.WebAnalysis.DnsComputeSuccessMetricsClassic | pkg/minipipeline/analysis.go:343-383 | the classic sets |
| Analysis.WebAnalysis.StrictRefinesClassic | pkg/minipipeline/analysis.go:272-383 | Valid is the classic Valid plus T and Invalid the classic Invalid less T, T being the lookups confirmed by a handshake; valid and invalid are disjoint in both |
| Analysis.WebAnalysis.DnsComputeFailureMetrics | pkg/minipipeline/analysis.go:385-474 | expected, unexpected and unexplained failures, and the first failure of the initial request |
| Analysis.WebAnalysis.TcpComputeMetrics | pkg/minipipeline/analysis.go:476-538 | the seven sets of connect failures, in every iteration order |
| Analysis.WebAnalysis.TlsComputeMetrics | pkg/minipipeline/analysis.go:540-593 | the seven sets of handshake failures, in every iteration order |
| Analysis.WebAnalysis.HttpComputeFailureMetrics | pkg/minipipeline/analysis.go:595-630 | the two sets of round trip failures, in every iteration order |
| Analysis.FailureSetsAreDisjoint | pkg/minipipeline/analysis.go:385-593 | expected, unexpected and unexplained failures are pairwise disjoint for DNS, TCP and TLS |
| Analysis.TagsSplitFailures | pkg/minipipeline/analysis.go:476-593 | failures during web fetch and connectivity check are disjoint parts of all failures, and are all of them iff each has a tag |
| Analysis.ExpectedSuccessMembers | pkg/minipipeline/analysis.go:385-474 | after any loading calls, controls included, a transaction is an expected DNS success iff its first failed lookup counts, belongs to the initial request, failed with an empty failure and has a control lookup that succeeded |
| Analysis.ExpectedSuccessNeedsEmptyFailure | pkg/minipipeline/analysis.go:385-474 | hence the set is empty, whatever the control says, when no DNS event reports a failure without a text |
| Analysis.WebAnalysis.HttpHandleFinalResponse | pkg/minipipeline/analysis.go:646-670 | records a final response |
| Analysis.WebAnalysis.HttpComputeFinalResponseMetrics | pkg/minipipeline/analysis.go:632-644 | comes to the outcome of the order in which it iterates: the first final response is recorded, or panics |
| Analysis.FinalOutcomeIsDeterministic | pkg/minipipeline/analysis.go:632-670 | what the analysis comes to, nothing, a recorded response or a panic, is the same in every iteration order iff there is at most one final response or the assertion fails at each of them |
| Analysis.PanicsExactly | pkg/minipipeline/analysis.go:632-663 | no iteration order of the endpoints panics iff no final response with a control is on an endpoint whose handshake failed |
| AnalysisMeaning.OnlyEndpoints | pkg/minipipeline/analysis.go:476-630 | and nothing but endpoints is |
| AnalysisMeaning.OutcomeMeans | pkg/minipipeline/analysis.go:632-663 | an iteration comes to nothing iff no endpoint has a final response, and otherwise to the first one: recorded, or a panic iff the control has a response and the handshake failed |
| AnalysisMeaning.RecordedMeans | pkg/minipipeline/analysis.go:646-670 | the response is recorded in one of four places, by TLS or TCP and with or without the control's response, and compared with the latter where both have what is compared |
| Analysis.FailedHandshakeThenFinalResponse | pkg/minipipeline/analysis.go:656-663 | ingestion does not exclude that: a failed handshake and a final response in one transaction lead to it |
| Analysis.WebAnalysis.Analyze | pkg/minipipeline/analysis.go:102-118 | the whole analysis: every set is a function of the observations |
| Analysis.AnalyzeWebObservationsWithLinearAnalysis | pkg/minipipeline/analysis.go:122-127 | the analysis of a valid container; no panic when no final response is on a failed handshake |
| Resolver.SortReversesEquals | pkg/engineresolver/state.go:72-76 | with at-least as its comparison the insertion sort, which Go uses for up to 20 entries, reverses the order of equal scores |
| Resolver.SortDescends | pkg/engineresolver/state.go:72-76 | its result is non-increasing |
| Resolver.StateDefaultEachOnce | pkg/engineresolver/state.go:53-97 | reading the state gives a non-increasing list with all built-in resolvers and no others; each exactly once iff no supported entry is stored twice |
| Resolver.Resolver.ReadStateAndPrune | pkg/engineresolver/state.go:53-69 | panics iff some stored entry is null, and otherwise keeps the supported entries in order |
| Resolver.Resolver.ReadStateDefault | pkg/engineresolver/state.go:80-97 | likewise, and otherwise refines the pure function: prune, add what is missing, sort |
| Resolver.Resolver.MaybeConfusion | pkg/engineresolver/resolver.go:170-186 | swaps the first entry with the second of two, or with the third of more, or does nothing |
| Resolver.Resolver.TryLookup | pkg/engineresolver/resolver.go:144-163 | a success moves the score nine tenths of the way to 1, a failure to 0, and a missing child resolver sets it to 0 |
| Resolver.Resolver.LookupHost | pkg/engineresolver/resolver.go:102-129 | panics and stores nothing iff some stored entry is null; otherwise tries in order up to the first success, skipping for a proxy and not scoring when the context is done; stores the new scores in any case, without nulls; answers with the success or all errors |
| Resolver.RunKeepsInv | pkg/engineresolver/resolver.go:102-163 | over every run from an empty store, scores stay within 0 and 1 and each built-in URL is stored exactly once |
| Resolver.WorkingResolversComeFirst | pkg/engineresolver/resolver.go:102-186 | after any run, the next list puts every resolver whose last attempt succeeded before every one whose last attempt failed |
| Resolver.UntriedKeepsScore | pkg/engineresolver/resolver.go:102-129 | a resolver that is skipped, not reached, or reached after the context is done keeps its score |
| Resolver.ProxySkips | pkg/engineresolver/resolver.go:131-142 | of the built-in resolvers a proxy rules out exactly those over HTTP/3 and the system's |
| ResolverMeaning.LookupMeans | pkg/engineresolver/resolver.go:102-163 | a lookup tries entries in order up to the first that is used and succeeds; each tried score moves nine tenths of the way to one or to zero, or to zero without a child resolver; all others stay; the answer is that success, or the errors of all that were used |
| ResolverMeaning.StateDefaultMembers | pkg/engineresolver/state.go:53-97 | the list read has exactly the supported stored entries, as stored, and the built-in ones that are missing |

## Left out

- Networking itself: TCP, TLS, HTTP and DNS operations and certificate verification are outcomes.
- JSON, the key-value store, logging, byte counters, mocks and the database; a stored document is either absent or a decoded value.
- Splitting the dialed endpoint into host and port: an endpoint that does not split fails before anything starts.
- DialClock.DelaysAreHonoured: times are unbounded integers; logging between the wait and the announcement takes no step of its own.
- The user, bridge and DNS policies' own loops: their tactics are given sequences; the test-helper policy has the DNS policy as its child, as it is composed.
- Random shuffles of server names and bridges: arbitrary orders.
- StatsManager.StatsManager.OnStarting: records are values in the container's map, so the sharing of one record object between a handler and the map is not captured; the handlers hold the mutex.
- StatsManager.CountedConserves: counters are unbounded, because an int64 counter does not wrap around in practice.
- StatsManager.StatsContainerPruneEntries: times are integers, so the saturation of a time difference beyond 292 years is not captured.
- StatsTactics.SortSliceStable: is insertion sort, which is Go's algorithm for up to 20 records; for more, with records that beat each other, Go may give another permutation. What is proved of prunes and of the statistics policy allows any permutation in that case.
- StatsManager.StatsManager.Close: waiting for the trimmer's goroutine is modelled by no trim being possible afterwards.
- StatsManager.StatsManager.LookupTactics: the mutex is not modelled; every method is one atomic step.
- Overlapped.Map: a call's result does not say whether its context was canceled in time; any result is allowed. The watchdog is the assumption that every call returns.
- Iox.NeverStuck: assumes that a pending read may return.
- Containers.WebObservation: the fields of an observation are one immutable record in one mutable field; in-place updates and aliasing are those of the observation.
- Observations: tag parsing, response titles, header names and the location header are given with the events; when several headers differ from "location" in case only, the source picks one by iteration order.
- Analysis: comparing two HTTP responses and telling IPv6 addresses are given functions; the analysis reads observations only, so it works on their values.
- Analysis.WebAnalysis.HttpComputeFinalResponseMetrics: a panic is a result; how it unwinds is not modelled.
- Resolver: floating-point rounding; URL syntax beyond the scheme before the first colon, which decides for the built-in URLs; concurrent lookups, which store independently read lists; caching and closing of child resolvers.
- Resolver.Resolver.ReadStateDefault: is insertion sort, which is Go's algorithm for up to 20 entries; stored duplicates could make longer lists.
- The QUIC, HTTP/3, netemx, libtor and platform-specific parts: they wrap network stacks and operating systems, whose behaviour is outside the model.
- Error classification tables: fixed mappings of error texts without state.
- `classic.go`, `normalize.go` and `sorting.go` of the minipipeline: filters and sorts for test output and for comparisons, on which ingestion and the full analysis do not depend.
