# Verified models of the dashboard's client core

This project models, in Dafny, the parts of the web application whose correctness depends on order
and on state, and proves what they promise. Each module follows one source file or one component of
it, in the source's own form: a class where the source updates variables in place, a method with a
loop where it loops, functions and lemmas where it computes.

The main part is the control-plane client (`src/lib/control-plane-client.ts`), four state machines
on top of one another:

- `Scheduler`: six request slots, a FIFO queue, waiters that can be aborted.
- `ControlPlaneRequests`: shared in-flight queries with counted consumers, cancelled when the last
  consumer leaves, and mutations.
- `MutationListeners`: who is told of a successful mutation.
- `ResilientSubscriptions`: a subscription that retries by itself, guarded by generation numbers.
- `SharedSubscriptions`: one upstream subscription fanned out to many sinks.
- `OperationKeys`: the key under which requests and subscriptions are shared.

Around it stand the caches and limiters that must agree with a simple specification, and small
algorithms with sharp ones: `IntegrationConfiguration`, `FormatterCaches`, `RateLimits`,
`BodyLimits`, `SequenceRanges`, `BuildLogRanges`, `Coverage`, `AppOrigins`, `FilterIterator`, `SchemaEscape`.
`dafny verify dfyconfig.toml` checks everything.

## How concurrency is modelled

JavaScript runs one callback at a time, so a step is what runs between two returns to the event
loop, and a run is any finite sequence of steps. `RunEvents`, `RunSteps` and `Serve` quantify over
all of them; for the configuration cache and the filtering iterator the state after a run is moreover
a function of its steps (`After`), and the run comes to exactly that state. Where a step calls out (a
sink, an upstream's disposer, a listener) and the callee may call back before it returns, the
callee's behaviour is a value, a script of nested calls of any depth, and the proofs hold for every
script. Two orders are relied on: aborting a signal sets its flag and runs its listeners in one step,
and `cleanup` (control-plane-client.ts:244) runs before the reactions that consumers attach later
(line 179). Where the first is split in two the consequence is stated
(`Scheduler.RequestScheduler.Settle`, `Scheduler.StalledRun`).

Histories and what the proofs keep track of are extra fields, most of them ghost; no answer depends
on them. The network, clocks, `Intl`, `new URL`, `localeCompare`, the error classifiers and the
behaviour of listeners are parameters; what is assumed of `Intl` is `FormatterCaches.RejectsBars`, of
`new URL` `AppOrigins.UrlParser` and `AppOrigins.KeepsHost`, of `localeCompare`
`OperationKeys.StrictWeak`.

## Where the code does less than one would expect

- A queued request whose signal is aborted before its listener has run is skipped without waking the
  next one (control-plane-client.ts:52-55). A settlement keeps the queue work-conserving if and only
  if at most one request waits or the head still wants to run: `Scheduler.RequestScheduler.Settle`;
  `Scheduler.StalledRun` is a concrete run in which a later request overtakes.
- A sink can get an error after `dispose`, if and only if a permanent error's own release of the
  upstream calls `dispose` back: `ResilientSubscriptions.ResilientSubscription.OnError`,
  `QuietExactly`, and the concrete `DisposedDuringRelease`.
- A retry timer can outlive `dispose`, if and only if handling a transient error calls `dispose` back,
  from the release or from the reconnect it is due: the timer is set afterwards
  (control-plane-client.ts:505-513), and does nothing when it fires.
  `ResilientSubscriptions.ResilientSubscription.OnError`, `TimersExactly`, and the concrete
  `TimerOutlivesDispose`.
- Two queries whose variables differ in member order only get different keys if and only if an object
  has two names that `localeCompare` calls equal, in a different order:
  `OperationKeys.OperationKeyIffAlike`, `MemberOrderIsFree`, and the concrete `EquivalentNames`.
- An unscoped clear makes a read that is under way ask again if and only if its provider is one of
  the four known ones: `IntegrationConfiguration.UnscopedClearDuringRead`.
- A canonical origin taken from the list that pins its scheme's default port is refused by the list
  itself, unless another entry takes its hostname at any port: `AppOrigins.CanonicalIsTrusted`. Such
  an entry alone on the list is always refused: `AppOrigins.PinnedDefaultPort`, and
  `AppOrigins.PinnedExample` for `https://a.com:443`. In production such an environment is resolved
  without a complaint: `AppOrigins.PinnedInProduction`.
- The rate limiter's bound over any half-open minute is `2 * limit - 1`, not `limit`, and it is
  reached: `RateLimits.AcceptedPerMinute`, `RateLimits.Serve`, `RateLimits.BoundIsTight`.
- `splitCoverage` covers exactly `coveredCount` lines if and only if `0 <= coveredCount <= n`.
- Escaped schema text evaluates to itself if and only if it holds no carriage return.
- Two formatter requests can share a key when one has a `|` in its locale and the other in its zone
  (`FormatterCaches.KeysCollide`); no cached formatter is ever affected, because such names are
  rejected before they are cached (`FormatterCaches.DateFormatters.FormatDateValue`).

## Model

| member | source | states |
|---|---|---|
| `Scheduler.RequestScheduler.Run` | src/lib/control-plane-client.ts:50-72 | The closure dispatches its job, taking a slot, unless the job's own signal is aborted by then, in which case it only rejects it |
| `Scheduler.RequestScheduler.Submit` | src/lib/control-plane-client.ts:73-78 | A submission is refused under an aborted signal, dispatched into a free slot, or queued; accounting, work conservation and first-come-first-served order are kept |
| `Scheduler.RequestScheduler.Settle` | src/lib/control-plane-client.ts:57-70 | A settled request frees its slot and runs the head of the queue; from a conserving state the queue stays conserving exactly when at most one request waits or the head is not stopped |
| `Scheduler.RequestScheduler.AbortQueued` | src/lib/control-plane-client.ts:44-49 | Takes exactly one waiting job out of the queue and rejects it |
| `Scheduler.RequestScheduler.AbortAllQueued` | src/lib/control-plane-client.ts:44-49 | The listeners of one signal, run one after another while the queue shrinks, remove exactly the jobs that captured it and keep the others in order |
| `Scheduler.RequestScheduler.Abort` | src/lib/control-plane-client.ts:44-49 | An abort touches waiting jobs only: what is dispatched keeps running |
| `Scheduler.ExactlyOnePlace` | src/lib/control-plane-client.ts:43-79 | Every submission is queued, dispatched or rejected, and only one of these |
| `Scheduler.JoinsInOrder` | src/lib/control-plane-client.ts:75-76 | A new waiter stands behind everything dispatched and queued |
| `Scheduler.SelectIncreasing` | src/lib/control-plane-client.ts:44-49 | Removing aborted waiters keeps the rest in submission order |
| `Scheduler.SettledFair` | src/lib/control-plane-client.ts:57-60 | With no aborted waiter, a settlement keeps all slots busy while anybody waits, and dispatches in submission order |
| `Scheduler.RunEvents` | src/lib/control-plane-client.ts:14-80 | Over every run: 0 to 6 active requests, a non-empty queue means all six are busy, dispatches and then the queue are in submission order, every submission is accounted for once, each rejected job's own signal was aborted and no waiting job's was, and without aborts nothing is rejected |
| `Scheduler.StalledRun` | src/lib/control-plane-client.ts:52-55 | A concrete run: a free slot beside a waiting request, which a later request overtakes |
| `ControlPlaneRequests.ControlPlaneClient.Start` | src/lib/control-plane-client.ts:228-246 | A fresh query is listed under its key and scheduled under its own controller |
| `ControlPlaneRequests.ControlPlaneClient.Find` | src/lib/control-plane-client.ts:226-246 | The query to join: the one in flight under the key, or a fresh one; either is unsettled and not aborted |
| `ControlPlaneRequests.ControlPlaneClient.Consume` | src/lib/control-plane-client.ts:153-189 | One more counted consumer, whose reaction comes after those attached before |
| `ControlPlaneRequests.ControlPlaneClient.Request` | src/lib/control-plane-client.ts:225-247 | An aborted caller gets nothing and changes nothing; any other joins or starts a query that is not aborted |
| `ControlPlaneRequests.ControlPlaneClient.Release` | src/lib/control-plane-client.ts:161-167 | The first release of a consumer settles it and uncounts it, every later one does nothing |
| `ControlPlaneRequests.ControlPlaneClient.Forget` | src/lib/control-plane-client.ts:171-176 | A query nobody waits for leaves the table and has its controller aborted in one step; if and only if it was queued, it is taken out of the queue and is no longer pending |
| `ControlPlaneRequests.ControlPlaneClient.Cancel` | src/lib/control-plane-client.ts:171-176 | Cancelling removes exactly this query's own table entry and aborts its controller; the query is rejected if it was waiting in the queue, and otherwise no query changes |
| `ControlPlaneRequests.ControlPlaneClient.CancelIfLast` | src/lib/control-plane-client.ts:171-176 | The controller is aborted exactly when no consumer is left and the query is not settled |
| `ControlPlaneRequests.ControlPlaneClient.AbortConsumer` | src/lib/control-plane-client.ts:168-178 | A consumer's abort settles that consumer alone, by its own signal, at most once; if the table changes, only its own query leaves it |
| `ControlPlaneRequests.ControlPlaneClient.AbortCaller` | src/lib/control-plane-client.ts:44-49 | A caller's signal cancels no dispatched work and touches no query by itself |
| `ControlPlaneRequests.ControlPlaneClient.Respond` | src/lib/control-plane-client.ts:103-151 | An answered query resolves with the data; one that failed is a timeout if it timed out, else an abort if and only if its own controller is aborted, else the network's error; its slot goes to the next job |
| `ControlPlaneRequests.ControlPlaneClient.Cleanup` | src/lib/control-plane-client.ts:240-244 | Late cleanup marks the query settled and removes its entry only if the key still names this query |
| `ControlPlaneRequests.ControlPlaneClient.Notify` | src/lib/control-plane-client.ts:179-186 | The next reaction settles its consumer with the query's outcome, unless it was settled before |
| `ControlPlaneRequests.ListedQueries` | src/lib/control-plane-client.ts:168-177 | A listed query is unsettled, not aborted, and counts exactly its open consumers, at least one |
| `ControlPlaneRequests.OneLiveQueryPerKey` | src/lib/control-plane-client.ts:226-247 | At most one joinable query per key, and that one is listed |
| `ControlPlaneRequests.ConsumerIsolation` | src/lib/control-plane-client.ts:153-189 | A consumer is settled at most once, by its own aborted signal or with an outcome that is not an abort; when a controller is aborted every consumer has been settled already |
| `ControlPlaneRequests.EveryConsumerSettles` | src/lib/control-plane-client.ts:179-186 | Once the reactions of a settled query have run, each of its consumers has been settled exactly once |
| `ControlPlaneRequests.EveryConsumerIsServed` | src/lib/control-plane-client.ts:153-189 | A consumer waits exactly while it has not been told; one whose own signal is not aborted can only be told its query's outcome |
| `ControlPlaneRequests.CancelKeeps` | src/lib/control-plane-client.ts:171-176 | Cancelling keeps the in-flight invariant and finds its own entry in the table |
| `ControlPlaneRequests.CleanupKeeps` | src/lib/control-plane-client.ts:240-244 | Cleanup keeps the invariant even when a successor has taken the key |
| `ControlPlaneRequests.RunEvents` | src/lib/control-plane-client.ts:153-247 | Over every run of requests, aborts, responses, reactions, mutations, their successes and listeners that come and go: the table invariant, one live query per key, aborted controllers without consumers, every consumer settled exactly once, by its own signal or with its query's outcome, which is the data exactly when the network answered that query with it; a mutation's likewise; and every success told exactly once to each listener of its moment and to nobody else |
| `ControlPlaneRequests.Step` | src/lib/control-plane-client.ts:171-221 | After its controller is aborted nobody joins a query any more; promises settle once, with what the network answered; the audience of a mutation is recorded once, at its success, as the listeners registered then |
| `ControlPlaneRequests.ControlPlaneClient.Mutate` | src/lib/control-plane-client.ts:208-212 | A mutation hands its signal to the scheduler only if it opted into cancellation before dispatch, and is refused if and only if that signal is aborted already |
| `ControlPlaneRequests.ControlPlaneClient.MutationSettles` | src/lib/control-plane-client.ts:208-212 | A dispatched mutation that is answered ends with the data, one that fails with a timeout or the network's error, and never with an abort: no signal reaches it |
| `ControlPlaneRequests.OnlyDisposableMutationsAreRejected` | src/lib/control-plane-client.ts:206-212 | A mutation that never ran had opted in and its signal was aborted, and it was never dispatched |
| `ControlPlaneRequests.ControlPlaneClient.MutationSucceeds` | src/lib/control-plane-client.ts:213-222 | Each listener registered at the moment of success is called exactly once for that mutation and nobody else is, whatever they add, remove or throw; the result is returned unchanged |
| `MutationListeners.ListenerSet.Add` | src/lib/control-plane-client.ts:194-199 | A listener is registered once, at the end |
| `MutationListeners.ListenerSet.Remove` | src/lib/control-plane-client.ts:194-199 | Unregistering leaves that listener unregistered, and every other one registered in the same order |
| `MutationListeners.ListenerSet.TellAll` | src/lib/control-plane-client.ts:213-221 | The listeners of the moment are called in registration order, one call each, although listeners register, unregister and throw meanwhile; a throw is swallowed and the loop goes on |
| `MutationListeners.ExactlyOnce` | src/lib/control-plane-client.ts:213-221 | A listener has been called exactly once for each success at which it was registered, and for nothing else |
| `OperationKeys.TextInjective` | src/lib/control-plane-client.ts:82-93 | JSON text determines the value it was made from, and where that value ends |
| `OperationKeys.CanonicalIffAlike` | src/lib/control-plane-client.ts:82-93 | Sorting members at every depth gives two values the same form exactly when they are equal up to member order, members with tied names in the same order, and with array order significant |
| `OperationKeys.OperationKeyIffAlike` | src/lib/control-plane-client.ts:82-93 | Two values have the same key if and only if they are equal up to object member order at every depth, members whose names `localeCompare` ties being in the same order |
| `OperationKeys.MemberOrderIsFree` | src/lib/control-plane-client.ts:82-93 | Every value that differs from this one in member order only has the same key, if and only if no object in it has two names that `localeCompare` ties |
| `OperationKeys.OperationKeyIffSame` | src/lib/control-plane-client.ts:82-93 | Without tied names, two values have the same key if and only if they are equal up to object member order at every depth |
| `OperationKeys.SortOrdered` | src/lib/control-plane-client.ts:85-89 | Sorted members are in name order, tied ones in the order they came in |
| `OperationKeys.EquivalentNames` | src/lib/control-plane-client.ts:86-88 | A concrete pair: composed and decomposed spelling of one letter as two names, in two orders, give two keys |
| `OperationKeys.QueryKeyIffAlike` | src/lib/control-plane-client.ts:226 | Two queries share a request exactly when their documents are equal and their variables are equal up to the order of untied members, absent variables counting as null |
| `OperationKeys.PairKeyInjective` | src/lib/integration-configuration.ts:30 | The text of a pair of strings determines the pair |
| `ResilientSubscriptions.AuthenticationRecovery.Terminate` | src/lib/control-plane-client.ts:450-463 | A reconnect is forced exactly when the last forced one was 250 ms ago or earlier; forced ones stay 250 ms apart |
| `ResilientSubscriptions.TerminationsPerSpan` | src/lib/control-plane-client.ts:450-463 | Any span of T ms holds at most T/250 + 1 forced reconnects, across all subscriptions |
| `ResilientSubscriptions.ResilientSubscription.OnNext` | src/lib/control-plane-client.ts:483-487 | The live attempt's value reaches the sink at once; a superseded or disposed attempt's changes nothing |
| `ResilientSubscriptions.ResilientSubscription.OnComplete` | src/lib/control-plane-client.ts:518-523 | The live attempt's completion ends the subscription; any other changes nothing |
| `ResilientSubscriptions.ResilientSubscription.OnError` | src/lib/control-plane-client.ts:488-517 | The live attempt is superseded and released; a permanent error is reported, any other schedules one retry after 1, 2, 4, 8, 16 and then always 30 seconds and, for an authentication error, a paced reconnect; the sink can be told after `dispose` in exactly one way, and a timer can be set after `dispose` in exactly two |
| `ResilientSubscriptions.ResilientSubscription.GiveUp` | src/lib/control-plane-client.ts:491-500 | The upstream is released before the sink is told, and nothing follows |
| `ResilientSubscriptions.ResilientSubscription.RetryLater` | src/lib/control-plane-client.ts:502-516 | One pending timer with the current delay, no open upstream, a reconnect exactly when it is due |
| `ResilientSubscriptions.ResilientSubscription.OnDispose` | src/lib/control-plane-client.ts:533-538 | Disposed for good: no timer is pending at its return and the current upstream is released; a timer set afterwards needs a release or reconnect that called `dispose` back |
| `ResilientSubscriptions.ResilientSubscription.Subscribe` | src/lib/control-plane-client.ts:478-530 | Not disposed: exactly the next attempt is opened, and recovery is announced only while it is live; whatever calls back during `subscribe`, nothing stays open but an upstream whose disposer is known; disposed: nothing happens |
| `ResilientSubscriptions.ResilientSubscription.Abandon` | src/lib/control-plane-client.ts:525 | An attempt ended during its own `subscribe` is released as soon as its disposer is known |
| `ResilientSubscriptions.ResilientSubscription.OnTimer` | src/lib/control-plane-client.ts:513-516 | The timer opens the next attempt unless the subscription was disposed, and announces the recovery if nothing interferes |
| `ResilientSubscriptions.AllowedTraceIsSafe` | src/lib/control-plane-client.ts:472-538 | What the steps allow adds up: values then at most one end, no upstream after the end or `dispose`, one upstream at a time, every later one opened for a retry scheduled since the one before, only the latest attempt heard, silence and no second timer while a retry is pending |
| `ResilientSubscriptions.QuietExactly` | src/lib/control-plane-client.ts:491-500 | After `dispose` the sink hears nothing, except exactly in runs in which a release disposed |
| `ResilientSubscriptions.TimersExactly` | src/lib/control-plane-client.ts:502-516 | No timer is set after `dispose`, except exactly in runs in which a release or a reconnect disposed |
| `ResilientSubscriptions.DelayDoubles` | src/lib/control-plane-client.ts:508-511 | Without a value in between each delay is twice the one before, and never more than 30 seconds; the first is 1 second |
| `ResilientSubscriptions.TimerOutlivesDispose` | src/lib/control-plane-client.ts:502-516 | A concrete run in which a timer is pending after `dispose` |
| `ResilientSubscriptions.AllowedTraceIsPaced` | src/lib/control-plane-client.ts:508-516 | The first retry, and the first after a value, waits 1 second; each further one without a value in between waits twice as long as the one before, up to 30 seconds |
| `ResilientSubscriptions.RunEvents` | src/lib/control-plane-client.ts:465-539 | All of this for every run with every synchronous interleaving of callbacks: each thing seen was allowed by what came before; a pending timer belongs to a retry scheduled since the latest attempt, with no upstream open; once disposed, every upstream ever opened has been released |
| `ResilientSubscriptions.PoliteExactly` | src/lib/control-plane-client.ts:488-517 | The condition under which nothing follows `dispose`, said of every callback at whatever depth: no error's release (nor, for timers, its reconnect) calls `dispose` back |
| `ResilientSubscriptions.DisposedDuringRelease` | src/lib/control-plane-client.ts:495-498 | A concrete run in which the sink gets an error after `dispose` |
| `SharedSubscriptions.SubscriptionTable.SharedSubscribe` | src/lib/control-plane-client.ts:548-591 | A registration joins what is listed under its key from now on, or gets an entry and an upstream of its own whose first messages it receives |
| `SharedSubscriptions.SubscriptionTable.LeaveNow` | src/lib/control-plane-client.ts:592-596 | Leaving takes one sink out of its entry, once, and logs it; the last one out delists and disposes its own entry and no other; whoever has left is in no entry's sinks |
| `SharedSubscriptions.SubscriptionTable.Deliver` | src/lib/control-plane-client.ts:575-586 | Every sink of the moment is handed this message once, even if others leave, join, subscribe anew or throw meanwhile; an error or completion leaves the entry without sinks |
| `SharedSubscriptions.SubscriptionTable.TakeSnapshot` | src/lib/control-plane-client.ts:568-583 | The sinks to serve are those registered when delivery begins; a final message empties the entry first |
| `SharedSubscriptions.SubscriptionTable.HandTo` | src/lib/control-plane-client.ts:289-300 | One sink is called with the delivered message, the only one it is owed, whether or not it throws, and whatever it calls is kept in order |
| `SharedSubscriptions.SubscriptionTable.Finish` | src/lib/control-plane-client.ts:568-574 | Only the entry itself leaves the table, never a successor under its key |
| `SharedSubscriptions.RemoveKeeps` | src/lib/control-plane-client.ts:592-596 | Listed, with an open upstream and with sinks stay one and the same thing when a sink leaves, even before the disposer is known |
| `SharedSubscriptions.StaleLeave` | src/lib/control-plane-client.ts:592-596 | Called at any time, a leave neither delists, empties nor disposes another entry, not even a successor under its key; after the entry has ended it changes nothing, and a second call changes nothing |
| `SharedSubscriptions.NothingAfterLeaving` | src/lib/control-plane-client.ts:592-596 | Whatever happens between two quiet moments, a consumer that is in no entry's sinks at the first has received nothing more at the second |
| `SharedSubscriptions.LeaveIsForGood` | src/lib/control-plane-client.ts:592-596 | After a consumer's leave function has been called it receives nothing more, in any continuation of the run |
| `SharedSubscriptions.MessagesInOrder` | src/lib/control-plane-client.ts:575-586 | The messages of a stretch of deliveries are theirs one by one, in order |
| `SharedSubscriptions.QuietStateIsServed` | src/lib/control-plane-client.ts:541-597 | Between deliveries each consumer has received, once and in order, exactly the messages whose delivery began while it was registered, and the sinks are those the log of joinings and leavings gives |
| `SharedSubscriptions.RunEvents` | src/lib/control-plane-client.ts:541-597 | The same for every run, with one upstream per key, open exactly while an entry is listed |
| `IntegrationConfiguration.ConfigurationCache.Clear` | src/lib/integration-configuration.ts:15-23 | Deletes exactly the entries in scope and bumps by one exactly the named provider's revision, or those of `github`, `gitlab`, `jira` and `cacheServer` |
| `IntegrationConfiguration.ConfigurationCache.Read` | src/lib/integration-configuration.ts:25-37 | A read throws for an aborted signal; if its key is cached it returns that value at once and makes no call; otherwise it remembers the revision and makes exactly one |
| `IntegrationConfiguration.ConfigurationCache.Answer` | src/lib/integration-configuration.ts:37-42 | An answer is dropped for an aborted reader, stored and returned under an unchanged revision, and otherwise makes the read look again and, unless another answer is cached by now, call once more; the whole new state is stated |
| `IntegrationConfiguration.ConfigurationCache.Loop` | src/lib/integration-configuration.ts:31-37 | The top of the loop throws, returns the cached value without a call, or makes one call with the current revision |
| `IntegrationConfiguration.ConfigurationCache.Reject` | src/lib/integration-configuration.ts:37 | A failed call fails its own read and nothing else |
| `IntegrationConfiguration.CachedIsFresh` | src/lib/integration-configuration.ts:15-44 | Every cached value is the transport's answer to a call for its key, made after the latest clear that bumps its provider |
| `IntegrationConfiguration.ReturnedWasFresh` | src/lib/integration-configuration.ts:31-43 | A value that a read returned is the transport's answer to a call for that provider and query, with no bump between the call and the place in the log where the read ended with that value |
| `IntegrationConfiguration.CallsAreBounded` | src/lib/integration-configuration.ts:31-43 | The transport calls of a read lie between its beginning and its last call or its end, and their number is at most one more than the number of clears between these places that bump its provider |
| `IntegrationConfiguration.RunSteps` | src/lib/integration-configuration.ts:10-44 | Every run of reads, answers, failures, aborts and clears comes to the state that its steps determine, in which every cached and returned value is fresh, each read's calls are bounded, and what was returned is remembered until a clear |
| `IntegrationConfiguration.EveryRunIsFresh` | src/lib/integration-configuration.ts:10-44 | After every sequence of steps: freshness of all cached values, freshness of all returned values at their return, and the bound on every read's calls |
| `IntegrationConfiguration.EveryRunRemembers` | src/lib/integration-configuration.ts:31-44 | After every sequence of steps: a read that began after another one of the same provider and query had returned, with no clear in scope in between, has ended without a call |
| `IntegrationConfiguration.UnscopedClearDuringRead` | src/lib/integration-configuration.ts:18-22 | An unscoped clear during a read prevents the old answer from being stored exactly when the provider is one of the four known ones |
| `IntegrationConfiguration.ConfigurationListeners.Subscribe` | src/lib/integration-configuration.ts:46-84 | The first listener opens the one upstream subscription, later ones share it |
| `IntegrationConfiguration.ConfigurationListeners.Leave` | src/lib/integration-configuration.ts:85-92 | The last listener out closes the upstream and clears the cache |
| `IntegrationConfiguration.WithoutOnlyThat` | src/lib/integration-configuration.ts:85-92 | Leaving takes out that listener and keeps the others |
| `IntegrationConfiguration.ConfigurationListeners.Invalidate` | src/lib/integration-configuration.ts:53-58 | A change clears its scope and then calls exactly the listeners concerned, in order |
| `IntegrationConfiguration.ConcernedExactly` | src/lib/integration-configuration.ts:53-58 | Told are, once each and in order of subscription, those who wanted the changed provider or any provider, everyone for a change of everything, and nobody else |
| `IntegrationConfiguration.ConfigurationListeners.Deliver` | src/lib/integration-configuration.ts:67-70 | "ALL" clears everything, a provider's name clears that provider |
| `IntegrationConfiguration.ConfigurationListeners.Recover` | src/lib/integration-configuration.ts:75-79 | A recovery clears everything, except on the first connection |
| `FormatterCaches.RecentIsByLastUse` | src/lib/date-format.ts:55-63 | The specification's ranking of keys is the order of their latest accesses |
| `FormatterCaches.AccessMoves` | src/lib/date-format.ts:55-68 | One access to the newest `limit` keys gives the newest `limit` keys of the longer history: what was evicted never matters again |
| `FormatterCaches.Evict` | src/lib/date-format.ts:64-68 | The loop keeps the newest keys with their formatters |
| `FormatterCaches.FormatterCache.CacheFormatter` | src/lib/date-format.ts:49-70 | After any history the keys are exactly the last min(limit, distinct) by most recent access; a hit returns what the key was cached with, a failed construction changes nothing |
| `FormatterCaches.KeyInjective` | src/lib/date-format.ts:186 | A key whose locale and zone hold no bar determines the request's formatter, whatever the other request looks like |
| `FormatterCaches.KeysCollide` | src/lib/date-format.ts:186 | Two concrete requests with bars that share a key and want different formatters |
| `FormatterCaches.KeysApart` | src/lib/date-format.ts:239 | The two kinds of key never coincide |
| `FormatterCaches.HonestHit` | src/lib/date-format.ts:83-94 | A cached formatter found under a request's key is the one this request would build |
| `FormatterCaches.DateFormatters.DateTimeFormatter` | src/lib/date-format.ts:83-94 | At most 64 formatters, each built for its key |
| `FormatterCaches.DateFormatters.RelativeFormatter` | src/lib/date-format.ts:96-103 | At most 16 formatters, each for its own locale |
| `FormatterCaches.DateFormatters.FormatDateValue` | src/lib/date-format.ts:169-193 | The caches never show: every call renders with exactly the stated locale (`en` by default), style, hour cycle (12 by default) and zone (`UTC` if asked for), or throws, as if nothing were cached |
| `FormatterCaches.DateFormatters.FormatUtcMillis` | src/lib/date-format.ts:233-247 | The same for the millisecond formatter, which shares the cache |
| `RateLimits.AcceptedPerMinute` | src/lib/ios-registration-request.ts:46-52 | Any half-open minute accepts at most 2 * limit - 1 calls of one caller |
| `RateLimits.BoundIsTight` | src/lib/ios-registration-request.ts:46-52 | For every limit a run of calls reaches that bound |
| `RateLimits.ModestCallerIsAccepted` | src/lib/ios-registration-request.ts:46-52 | A caller with at most `limit` calls in every minute is never refused |
| `RateLimits.CallsInCounts` | src/lib/ios-registration-request.ts:46-52 | The calls counted in a stretch of time are those that fall in it |
| `RateLimits.Sweep` | src/lib/ios-registration-request.ts:42-44 | The sweep removes exactly the expired buckets |
| `RateLimits.Spend` | src/lib/ios-registration-request.ts:46-52 | A call opens a new window or counts in the live one, and is accepted in a new window or below the limit |
| `RateLimits.RecordedKeeps` | src/lib/ios-registration-request.ts:34-53 | Swept or not, one call leaves every caller's live bucket as the unswept specification has it |
| `RateLimits.RateLimiter.BucketsFor` | src/lib/ios-registration-request.ts:17-23 | Every namespace has its own buckets, created empty once |
| `RateLimits.RateLimiter.Allowed` | src/lib/ios-registration-request.ts:34-53 | While time does not go back, the answer depends on that caller's own calls alone: no sweep and no other caller ever changes it |
| `RateLimits.Serve` | src/lib/ios-registration-request.ts:34-53 | Over every run of requests from any number of callers, while time does not go back: the answers are those of each caller's own calls, no caller has more than 2 * limit - 1 accepted in any minute, and one with at most `limit` requests in every minute is never refused |
| `BodyLimits.ReadLimited` | src/lib/ios-registration-request.ts:60-84 | A body is refused exactly when it is longer than 32 KiB, as soon as a chunk shows it, and is otherwise returned whole and in order |
| `BodyLimits.JoinedFromFront` | src/lib/ios-registration-request.ts:79-84 | The returned body is the first chunk, whole, followed by the rest |
| `BodyLimits.CopyAll` | src/lib/ios-registration-request.ts:79-84 | Copying the chunks at a running offset fills the array with their concatenation |
| `SequenceRanges.Sorted` | src/lib/sequence-ranges.ts:4 | Sorting a set gives its members once each, in increasing order |
| `SequenceRanges.SequenceRanges` | src/lib/sequence-ranges.ts:2-11 | The ranges cover exactly the received numbers, increase, and leave a missing number between neighbours |
| `SequenceRanges.Determined` | src/lib/sequence-ranges.ts:2-11 | Such a list depends on the set of numbers only |
| `SequenceRanges.Minimal` | src/lib/sequence-ranges.ts:2-11 | No list of intervals with the same union, ordered or overlapping as it may be, is shorter |
| `BuildLogRanges.GroupByScope` | src/lib/build-log-ranges.ts:12-25 | Each scope gets one group, in order of first appearance, with exactly its received numbers |
| `BuildLogRanges.AppendGroup` | src/lib/build-log-ranges.ts:27-41 | The inner loop appends the group's ranges in canonical form and leaves the earlier groups' alone |
| `BuildLogRanges.BuildLogRanges` | src/lib/build-log-ranges.ts:9-44 | Scope by scope exactly the received numbers are acknowledged, never a missing one, in order of first appearance |
| `BuildLogRanges.AgreesWithSequenceRanges` | src/lib/build-log-ranges.ts:9-44 | Restricted to one scope, the result is that of `sequenceRanges` on that scope's numbers |
| `BuildLogRanges.OneResult` | src/lib/build-log-ranges.ts:9-44 | What is promised leaves exactly one possible result |
| `Coverage.SplitCoverage` | scripts/mock-data/coverage.ts:91-105 | Splits the lines where the credit overflows; exactly `coveredCount` are covered if and only if 0 <= coveredCount <= n |
| `Coverage.PrefixShare` | scripts/mock-data/coverage.ts:94-103 | After i lines exactly floor(i * c / n) are covered |
| `Coverage.CoveredWhereTheShareGrows` | scripts/mock-data/coverage.ts:96-99 | A line is covered exactly where that share grows |
| `Coverage.EveryWindowIsEven` | scripts/mock-data/coverage.ts:86-90 | Every window of w lines holds floor(w * c / n) or ceil(w * c / n) covered lines |
| `Coverage.LineIsPicked` | scripts/mock-data/coverage.ts:95-104 | Covered and uncovered partition the lines, each list in file order |
| `Coverage.ExecutableLineNumbers` | scripts/mock-data/coverage.ts:75-84 | The i-th number is 12 + i + floor(i / 4), strictly increasing; none for a negative count |
| `AppOrigins.ParsedIsWellFormed` | src/lib/app-origins.ts:86-129 | A parsed pattern's host spells its hostname and port in lower case without spaces, and its wildcard, if any, is the whole leftmost label with two labels after it |
| `AppOrigins.LowerSplit` | src/lib/app-origins.ts:108-113 | Lower-casing commutes with splitting a host |
| `AppOrigins.HostnameOnly` | src/lib/app-origins.ts:331-333 | A host without a port is taken by exactly the patterns that pin none and match its hostname |
| `AppOrigins.SplitsExactly` | src/lib/app-origins.ts:108-111 | A text is a host and a port exactly if it is spelled so: brackets around a non-empty text without a closing one, or a non-empty text without a colon, then nothing or a colon and digits |
| `AppOrigins.NothingTaken` | src/lib/app-origins.ts:326-327 | A candidate that is no host with an optional port is taken by no pattern |
| `AppOrigins.ExactTakes` | src/lib/app-origins.ts:320-343 | A pattern without a wildcard takes a host if and only if the lower-case hostnames are equal, and the ports too if the pattern has one |
| `AppOrigins.WildcardTakes` | src/lib/app-origins.ts:320-345 | `*.base` takes a host if and only if it is, in lower case, a non-empty text followed by `.base`, and the ports are equal if the pattern has one |
| `AppOrigins.WildcardForm` | src/lib/app-origins.ts:58-84 | Every pattern with a wildcard is `*.base`, where `base` holds a dot and no other asterisk |
| `AppOrigins.WildcardExactly` | src/lib/app-origins.ts:67-84 | An entry with an asterisk is accepted if and only if it has that form |
| `AppOrigins.WildcardComplaints` | src/lib/app-origins.ts:67-84 | A stray asterisk is complained about first, then a first label that is not one asterisk, then too few labels |
| `AppOrigins.ParseSpells` | src/lib/app-origins.ts:86-129 | A parsed entry is its scheme, if any, followed by its host up to letter case |
| `AppOrigins.ParsesExactly` | src/lib/app-origins.ts:86-129 | An entry parses to a well-formed pattern if and only if its trimmed text is the pattern's scheme, if any, and its host in any letter case, with no path, white space or `@` |
| `AppOrigins.ComplaintsInOrder` | src/lib/app-origins.ts:88-116 | A path or white space is complained about first, then credentials, then what is no host |
| `AppOrigins.NothingToParse` | src/lib/app-origins.ts:87-111 | A blank entry and a bare scheme are refused, each with its own error |
| `AppOrigins.TrimExactly` | src/lib/app-origins.ts:87 | Trimming takes off all the white space at either end, and nothing else |
| `AppOrigins.PatternRoundTrip` | src/lib/app-origins.ts:86-129 | Writing a pattern out and parsing it gives it back |
| `AppOrigins.EntriesByComma` | src/lib/app-origins.ts:221-228 | The list's entries are the non-blank texts between commas, trimmed, in order |
| `AppOrigins.ParsedInOrder` | src/lib/app-origins.ts:224-230 | Parsed entry by entry, in order; the error is the first faulty entry's |
| `AppOrigins.TrustedExactly` | src/lib/app-origins.ts:355-374 | An origin or URL is trusted through its parsed host and anything else as a host: under a listed pattern or, in inferred mode, if it is shaped like one |
| `AppOrigins.LoopbackExactly` | src/lib/app-origins.ts:49-56 | With or without brackets: `localhost`, `127.0.0.1`, `::1`, a name below `.localhost`, or a text that begins with `127.` |
| `AppOrigins.DefaultsAre` | src/lib/app-origins.ts:131-136 | The defaults are the three loopback hosts over http with the trimmed `PORT`, or 3000 |
| `AppOrigins.OriginText` | src/lib/app-origins.ts:169-180 | An origin is https exactly if the entry says so, or says nothing, is not loopback and the environment is production |
| `AppOrigins.Dedupe` | src/lib/app-origins.ts:144-155 | One entry per host in order of first appearance: the first one, made plaintext if any for that host is |
| `AppOrigins.DedupeKeepsAccepted` | src/lib/app-origins.ts:138-155 | Deduplication leaves the set of accepted hosts unchanged |
| `AppOrigins.PlaintextWins` | src/lib/app-origins.ts:138-155 | A kept entry is explicitly http if and only if some entry for its host is |
| `AppOrigins.Patterns` | src/lib/app-origins.ts:249-254 | In production the list as configured, otherwise one that accepts what it or the loopback defaults accept and always names a concrete host, or the defaults' own error |
| `AppOrigins.ConfiguredExactly` | src/lib/app-origins.ts:224-254 | Configured is what the list names and, outside a production run (a build counts as outside), the loopback defaults |
| `AppOrigins.WithPublicUrl` | src/lib/app-origins.ts:256-280 | Refused for a wildcard in production or for a public URL that has to join and is no pattern, and for nothing else; the URL's pattern joins only if its host is not accepted already |
| `AppOrigins.ResolveAppOrigins` | src/lib/app-origins.ts:212-304 | Refused if and only if `Refusal` says so, with that error, and never for want of a concrete origin; inferred mode exactly when nothing is configured in production; otherwise the accepted hosts are exactly the configured ones and the public URL's (in production without that URL the list itself), with the stated canonical origin, mode and `allHttps`, and that origin is trusted by its own list exactly as `CanonicalIsTrusted` says |
| `AppOrigins.Refusal` | src/lib/app-origins.ts:212-304 | Why an environment is refused, as the source checks it: public URL, list, loopback defaults, wildcard in production, public URL as a pattern; the last check, for a concrete origin, never fails |
| `AppOrigins.RefusalInOrder` | src/lib/app-origins.ts:222-254 | The public URL is complained about first, then the list, then outside production the defaults |
| `AppOrigins.RefusalOfList` | src/lib/app-origins.ts:252-288 | Without a public URL and with a list that parses: refused exactly for a wildcard in production |
| `AppOrigins.RefusalOfUrl` | src/lib/app-origins.ts:260-280 | In production with a list and a public URL that parse: refused for a wildcard, and otherwise exactly if no entry takes the URL's host and its origin is no pattern |
| `AppOrigins.CanonicalIsTrusted` | src/lib/app-origins.ts:273-289 | Outside inferred mode the public URL's origin is trusted by the list it comes with; one taken from the list, if the URL parser keeps its host but for a default port (`KeepsHost`), is trusted exactly when it pins no default port or another entry takes its hostname at any port |
| `AppOrigins.PinsExactly` | src/lib/app-origins.ts:178-180 | A host pins the default port exactly if it ends in `:443` for https, `:80` for http |
| `AppOrigins.PinnedDefaultPort` | src/lib/app-origins.ts:178-180 | Every `https` entry that pins port 443 and stands alone on the list gives a canonical origin that is not trusted |
| `AppOrigins.PinnedInProduction` | src/lib/app-origins.ts:212-304 | A production environment that lists one such entry and no public URL is resolved, with that entry's origin as canonical, and does not trust it |
| `AppOrigins.PinnedExample` | src/lib/app-origins.ts:178-180 | `https://a.com:443` is such an entry, also as the value of the list variable |
| `FilterIterator.FilteredIterator.Next` | src/lib/filter-async-iterator.ts:12-20 | A call on a closed iterator is done at once, any other asks the source |
| `FilterIterator.FilteredIterator.SourceYields` | src/lib/filter-async-iterator.ts:14-16 | A value that arrives after closing is dropped |
| `FilterIterator.FilteredIterator.SourceEnds` | src/lib/filter-async-iterator.ts:14-15 | The end or failure of the source is the end or failure of the call |
| `FilterIterator.FilteredIterator.Decide` | src/lib/filter-async-iterator.ts:16-18 | An accepted value is handed out, a rejected one asks the source again, and after closing the call is done, whatever was decided |
| `FilterIterator.FilteredIterator.AcceptFails` | src/lib/filter-async-iterator.ts:16 | A throwing `accept` fails its own call and closes nothing |
| `FilterIterator.FilteredIterator.Close` | src/lib/filter-async-iterator.ts:22-31 | Closed at once, with one call of the source's `return` if it has one |
| `FilterIterator.FilteredIterator.SourceReturned` | src/lib/filter-async-iterator.ts:22-31 | `throw` always throws; `return` throws only if the source's `return` fails |
| `FilterIterator.FilteredIterator.Step` | src/lib/filter-async-iterator.ts:12-31 | Whatever happens after closing, no pending or new call comes to a value, and no call ends twice |
| `FilterIterator.RunEvents` | src/lib/filter-async-iterator.ts:2-33 | Every interleaving comes to the state that its events determine: the results of the calls are the accepted ones of the judged values, in order of the calls if each `next` was awaited, the judged values then being the source's own; from closing on no call comes to a value, and the source's `return` has been called once for each closing |
| `FilterIterator.EveryRunIsSound` | src/lib/filter-async-iterator.ts:2-33 | The same statement about the results of the calls, for every sequence of events |
| `FilterIterator.LaterInRun` | src/lib/filter-async-iterator.ts:12-31 | From any moment of a run to its end: ended calls keep their results, and once closed nothing more is handed out |
| `FilterIterator.AwaitNext` | src/lib/filter-async-iterator.ts:12-20 | An awaited `next` ends with the next accepted value of the source, or as done when there is none left |
| `FilterIterator.Drain` | src/lib/filter-async-iterator.ts:12-20 | A consumer that awaits each `next` and collects the results of its calls gets exactly the accepted subsequence |
| `SchemaEscape.PassesAreOne` | scripts/prebuild-schema.ts:49-50 | The three replacement passes equal one escape per character |
| `SchemaEscape.RoundTrip` | scripts/prebuild-schema.ts:46-50 | The literal's value is the text with its line ends as a template literal reads them; it is the text itself if and only if there is no carriage return |
| `SchemaEscape.EscapeOpensNothing` | scripts/prebuild-schema.ts:46-57 | No backtick and no dollar sign is left unescaped, and the end of the text escapes nothing, so the closing backtick closes |

## Left out

- `fetch`, response parsing, timers, the WebSocket keep-alive and graphql-ws: a dispatched request settles by a step with an arbitrary response; that it settles at all is not stated.
- The regular expressions that classify operations and errors (`isQuery`, permanent, authentication): queries and mutations are separate operations, and errors carry the two classifications.
- ControlPlaneRequests: a shared record is a value under its job's number, so that two keys could alias one record is not expressible; that a key names one record is an invariant.
- ControlPlaneRequests.ControlPlaneClient.MutationSucceeds: a listener may register listeners, then throw or unregister some, but does not start a request from inside the call, which would be a step of its own afterwards.
- ResilientSubscriptions.RunEvents: sinks, disposers and `client.subscribe` do not throw (a release that throws at control-plane-client.ts:502 would leave no retry scheduled), and while one subscription's callbacks run no other one forces a reconnect.
- ResilientSubscriptions.ResilientSubscription.Perform: an upstream reports only for attempts it has been opened for; recovery listeners and connection listeners appear as scripts, their own lists are left out.
- SharedSubscriptions.SubscriptionTable.Deliver: sinks may do anything, but the same entry's upstream does not report again from inside its own delivery.
- OperationKeys.OperationKeyIffAlike: `undefined`, functions, `toJSON` and lone surrogates are left out; numbers are their canonical text; `localeCompare` is assumed to be consistent (`StrictWeak`, which allows ties), and the engine's own order for integer-like names is part of that order.
- IntegrationConfiguration.RunSteps: proved over a transport of its own. Through the shared in-flight queries a read can join a request that was dispatched before a clear, so only the time of the read's call is guaranteed, not that of the dispatch.
- IntegrationConfiguration.ConfigurationListeners.Invalidate: listeners that subscribe, leave or throw while they are being told, and an upstream that reports while it is being subscribed to.
- FormatterCaches: `Intl` output and the choice of unit in `formatRelativeTime`.
- RateLimits.RateLimiter.Allowed: says nothing about the answer once the clock has gone back; `sourceIp` and the test reset are not modelled.
- BodyLimits.ReadLimited: decoding and parsing the body, a missing body and a failing reader are left out.
- AppOrigins.CanonicalIsTrusted: says nothing about a listed host that `new URL` respells or rejects, such as `https://a.com:08080` or `https://a.com:99999`; these pin no default port and are not trusted either.
- AppOrigins: letters are lower-cased in ASCII only; `betterAuthBaseURL`, request and WebSocket checks, and the one-time warning are left out.
- FilterIterator: `prependAsyncIterator`, and the value that `throw` throws.
- SchemaEscape.RoundTrip: the reference decoder has no hexadecimal and Unicode escapes, which the escaper never writes; collecting and writing files is left out.
- Coverage: the fixture tables and the rounding of ratios.
- Everything else in the repository: components, fixtures, credentials and cryptography, HTTP ranges, MCP scopes, table orders and path helpers.
