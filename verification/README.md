# Verified model of wadjit

wadjit runs watchers: groups of HTTP and WebSocket tasks that are executed on a schedule and report
every outcome on one response channel. This project models the parts of it that keep state over time,
and proves what that state means.

* **DNS policy manager** (`Policy`, `GuardRail`, `History`, `LockSections`, `Manager`, `Calls`, `Http`). The
  manager of an HTTP endpoint decides, request by request, whether to look a host up again, which
  address to dial and whether to flush idle connections. It combines a cache, a force flag and a guard
  rail that counts failures. `History` says what a *history* of resolves, prepared requests and
  observed results prescribes, without mentioning any field. `Manager.PolicyManager` is the object with
  the fields; its `Valid()` says that every field is what its history prescribes and that every lookup
  it made, or skipped, followed the reference rule `History.NeedsLookup`. Theorems about all legal
  histories are therefore theorems about every sequence of calls. `Calls` spells out the histories that
  finished HTTP calls leave; all of these modules are about calls that do not overlap.
* **The same manager under concurrency** (`Interleaving`). A resolve releases its mutex between reading
  and writing the cache and shares a lookup with others. Requests are interleaved step by step; the
  critical sections are the functions of `LockSections` that the object is proved against, and
  `UndisturbedIsSequential`, `CachedIsSequential` and `SectionsAreEvents` join the two models.
* **Persistent JSON-RPC over WebSocket** (`Correlation`, `WsSteps`, `WsEndpoint`). `Correlation` says
  what a log of stored messages and handled frames means, `WsSteps` interleaves senders, the read pump
  and reconnects against a server that may send anything, `WsEndpoint` is the object, one call at a time.
* **Response pipeline and registry** (`Pipeline`, `Registry`). The gather channel, the forwarder, the
  export channel and the ordered shutdown as steps, with the forwarder's loop they add up to; the
  registry of watchers as an object.
* **Resolver** (`Resolver`). Addresses and least TTL out of raw DNS answers.

Times are unbounded nanoseconds; 0 is the unset time and every clock reading is positive. Clock
readings, resolver and server replies, generated ids and the answers of tasks and of the job scheduler
are parameters. In single-lookup mode the time of a resolve is the clock reading taken after the lookup,
in the other modes the one taken before it. A manager serves one URL, so "the host" is not a parameter
of its cache.

## Where the code and its documentation differ

The model follows the code.

* The guard rail's `Window` is documented as rolling. It is anchored at the first counted failure:
  T failures inside one window always cross if and only if T is 1 or 2 (`RollingUpToTwo`); from 3 on
  `CompletenessBoundTight` gives failures inside one window that never trigger, and `RollingIff` says
  exactly when T of them are enough.
* A failed lookup with a fallback is documented to complete the request with the cached address. The
  request is never sent: `ForwardedIff` says exactly which requests are, and that the fallback only
  reports the cached address; `FallbackNotSent` gives the run of calls for every policy it concerns.
* A TTL of zero or less is documented to make the next request resolve again. `ZeroTTLExpiresIff` says
  when it does: TTLMin must not stretch it, and the clock must have moved. `ZeroTTLOutlives` gives the
  run in which it does not.
* `DisableFallback` is documented to drop the cached address. Only the current request fails; the cache
  keeps the address. `DroppedIff` says that later requests all look up again if and only if it had run
  out anyway or the report of the failed request forces a lookup; `DroppedIsServed` gives a run in which
  a forced lookup fails and the address is used again.
* Forced lookups are documented for every mode. `ForceHonouredIff` says that an owed one is made in the
  refreshing modes, and otherwise only by single lookup before its first answer; `ForceNeverMade` gives
  the run in which it is not, for every other mode.
* Single lookup is documented to look up when the endpoint is initialised, once, and to reuse the answer
  indefinitely. `HttpEndpoint.Initialize` leaves an empty history: the lookup is the first request's, and
  is tried again until it succeeds. When requests overlap, a second lookup can replace the answer of the
  first: `SingleChangesIff` says exactly when, and `SingleLookupReplaced` gives the state.
* Close of a WebSocket endpoint is documented to cancel its context. Without a connection it does nothing:
  `WsEndpoint.Endpoint.Close` says when it cancels, and `SendsAfterClose` gives a run after which the
  endpoint dials and sends.

## Model

| member | source | states |
|---|---|---|
| Policy.TTLMaxBoundsIffValid | dns_policy.go:117-145 | TTLMax bounds every normalised TTL if and only if Validate accepts the TTL policy |
| Policy.AcceptedIff | dns_policy.go:109-131 | which policies Validate accepts, mode by mode and by the fields |
| Policy.NormalizeTTLProjects | dns_policy.go:134-145 | on a valid policy clamping is idempotent and monotone, gives TTLMin for what is not positive or below it, TTLMax for what is above a positive one, and leaves TTLs inside the bounds alone |
| GuardRail.CounterInvariant | dns_policy_manager.go:480-518 | after any results the count is below the threshold, zero exactly when no first failure is recorded, and the length of a suffix of failures that begins at the recorded time |
| GuardRail.CrossingWitnessed | dns_policy_manager.go:489-509 | every crossing ends exactly T contiguous failures, which a window, if set, spans |
| GuardRail.UnwindowedClosedForm | dns_policy_manager.go:489-509 | without a window the count is the trailing streak mod T and the crossings are the sum of floor(length / T) over the maximal streaks |
| GuardRail.WindowedCompleteness | dns_policy_manager.go:489-509 | any max(T, 2T-2) consecutive failures inside one window contain a crossing, whatever preceded them |
| GuardRail.CompletenessBoundTight | dns_policy_manager.go:489-509 | for every T >= 2 and every window a history exists whose last 2T-3 failures lie inside one window and contain no crossing |
| GuardRail.RollingIff | dns_policy.go:46-51 | T failures inside one window contain a crossing if and only if the counter before them is clear, has run out, or lasts until they complete it |
| GuardRail.RollingUpToTwo | dns_policy.go:46-51 | T failures inside one window contain a crossing in every history if and only if T is at most 2 |
| History.LastGoodIff | dns_policy_manager.go:292-302 | the last answer is that of the most recent successful lookup |
| History.NextLookupIff | dns_policy_manager.go:249-298 | when an answer must be looked up again, by the policy's fields: after its clamped TTL, after the cadence, or never |
| History.ServedFresh | dns_policy_manager.go:249-264 | a resolve that skips the lookup uses an answer that has not run out; its age is at most TTLMax in TTL mode, at most the cadence in cadence mode |
| History.ZeroTTLExpiresIff | dns_policy_manager.go:249-298 | after a TTL of zero or less the next request, at every later time, resolves again if and only if TTLMin is not positive or a force is owed; at the same instant only a force does it |
| History.SingleLookupForever | dns_policy_manager.go:196-237 | in single-lookup mode, for resolves that do not overlap, the first successful answer is the answer forever and nothing is looked up after it |
| History.CrossingActs | dns_policy.go:57-59 | with a positive threshold and an action every crossing leaves a flush pending, and a lookup too if the action is ForceLookup |
| History.NothingActs | dns_policy.go:57-59 | without either nothing is ever pending, and only ForceLookup forces |
| History.ForcePendingIff | dns_policy_manager.go:249-251 | a forced lookup is owed if and only if some ForceLookup crossing has no resolve after it |
| History.TriggerPendingIff | dns_policy_manager.go:501-530 | a flush is owed if and only if some crossing has no request prepared without error after it |
| History.ForcedOnce | dns_policy_manager.go:249-251 | when a force is owed the next resolve attempts a lookup, and until another ForceLookup crossing every later one attempts one only for a reason of its own, even if the forced attempt failed |
| History.LookupBudget | dns_policy_manager.go:317-384 | over any run, (successful lookups - 1 - ForceLookup crossings) times the cadence, or TTLMin in TTL mode, is at most the time between the first and the last successful lookup |
| LockSections.MustLookIffNeeded | dns_policy_manager.go:246-252 | the manager attempts a lookup exactly when the history says none succeeded, the last ran out, or a force is owed |
| LockSections.ResolveRefines | dns_policy_manager.go:241-314 | a resolve keeps cache, schedule and flags equal to what the history prescribes: the cache is the most recent success, and only a success changes it |
| LockSections.ObserveRefines | dns_policy_manager.go:466-518 | observing a result keeps counter, trigger and force flag equal to what the history prescribes |
| LockSections.ConsumeRefines | dns_policy_manager.go:522-530 | consuming the trigger keeps the state equal to what the history prescribes |
| LockSections.StateInvariant | dns_policy_manager.go:480-518 | in every state of a legal history: count bounds, count and first failure set together, cache empty exactly when no lookup succeeded, entries not expiring before their lookup |
| Manager.Lookup | dns_policy_manager.go:391-440 | a lookup answers exactly when the resolver delivered at least one address, and then with what it delivered; otherwise it fails with the error that was met |
| Manager.PortIs | dns_policy_manager.go:552-561 | the dial port is the URL's own, or 80 for http and 443 for https; no other scheme has one |
| Manager.ReportedIsTold | dns_policy_manager.go:254-313 | target, decision, expiry and fallback read off the fields are those the history prescribes |
| Manager.ForwardedIff | dns_policy_manager.go:267-290 | a request is forwarded exactly when it attempted no lookup or its lookup succeeded; with a fallback it only reports the cached address |
| Manager.CachedOutcome | dns_policy_manager.go:254-264 | a request with no lookup due is dialled to the head of the last answer, forces nothing and shows that answer, its lifetime and expiry |
| Manager.FreshOutcome | dns_policy_manager.go:292-314 | a request whose lookup succeeds is dialled to its head over a new connection and shows its addresses, TTL, expiry and duration |
| Manager.FailedOutcome | dns_policy_manager.go:267-290 | a failed lookup falls back to the last answer exactly in TTL and cadence mode, with an answer and DisableFallback not set; otherwise its error is the request's, without address; which decision is kept |
| Manager.PolicyErrorsIffInvalid | dns_policy.go:109-131 | outside the caching modes a resolve fails exactly on the policies Validate refuses, without a decision; default dials the URL, static its address |
| Manager.PolicyManager.constructor | dns_policy_manager.go:47-56 | a new manager has the empty history and the state that prescribes |
| Manager.PolicyManager.ResolveSingle | dns_policy_manager.go:196-237 | adds one resolve to the history under the reference rule and reports what the history prescribes |
| Manager.PolicyManager.ResolveTTL | dns_policy_manager.go:241-314 | the same in TTL mode, with fallback and hard failure |
| Manager.PolicyManager.ResolveCadence | dns_policy_manager.go:317-384 | the same in cadence mode |
| Manager.PolicyManager.Resolve | dns_policy_manager.go:163-193 | chooses by mode; static and default modes add nothing to the history |
| Manager.PolicyManager.PrepareRequest | dns_policy_manager.go:84-159 | errors and fallbacks keep a pending trigger and touch no connection; any other request consumes it and flushes if and only if there was one or a lookup was due and succeeded; the port of the plan; no event without a port; which decision is kept, told and handed to the hook in each case |
| Manager.PolicyManager.ConsumeGuardTrigger | dns_policy_manager.go:522-530 | acts exactly when the history has a crossing no prepared request has followed |
| Manager.PolicyManager.ObserveResult | dns_policy_manager.go:466-476 | errors and codes from 500 on are recorded as failures, anything else as a success |
| Manager.PolicyManager.RegisterGuardFailure | dns_policy_manager.go:480-509 | the whole new state, by the fields of the policy and the guard rail; nothing changes without a positive threshold or an action |
| Manager.PolicyManager.ResetGuard | dns_policy_manager.go:512-518 | clears the counter and leaves trigger and force flag alone |
| Calls.CallAdvances | task_http.go:167-211 | what one finished call changes: the last answer, the failure counter, the owed force |
| Calls.CallsAreLegal | task_http.go:167-211 | every run of calls that do not overlap leaves a legal history |
| Calls.ZeroTTLOutlives | dns_policy.go:134-137 | after one good call whose answer had a TTL of zero, any positive TTLMin keeps the next request for that long from resolving again |
| Calls.FallbackNotSent | dns_policy_manager.go:113-129 | under every valid refreshing policy with a fallback, a run of two calls of which the second is not sent, only reported with the cached address |
| Calls.DroppedIff | dns_policy.go:75-77 | after a call whose lookup failed without fallback, which is refused and reported as a failure, later requests all look up again if and only if the address had run out by then or that report forces a lookup; otherwise they are sent to the address until it runs out |
| Calls.DroppedIsServed | dns_policy_manager.go:282-289 | a run of calls in which a failed forced lookup is followed by a request to the address that was to be dropped |
| Calls.ForceHonouredIff | dns_policy_manager.go:163-193 | in every mode, an owed forced lookup is attempted by the next resolve if and only if the mode is TTL or cadence, or single lookup with nothing looked up yet |
| Calls.ForceNeverMade | dns_policy_manager.go:505-507 | in each valid mode but TTL and cadence, a call after which a forced lookup is owed and no resolve makes it |
| Http.TargetMoves | dns_policy_manager.go:98-158 | a forwarded request's target is the history's current target, which changes only with a forwarded request that forces new connections |
| Http.AnswerMoves | dns_policy_manager.go:254-313 | the same in the caching modes: the target moves with a new answer and with nothing else |
| Http.TargetIs | dns_policy_manager.go:443-456 | the current target is the head of the last answer, the static address or the URL's host, at the URL's port or its scheme's |
| Http.PolicyTransport.RoundTrip | dns_policy_manager.go:539-550 | every idle connection was dialled to the current target, so a forwarded request travels to it, at the right port, over a new or an idle connection; a request that is not forwarded touches none; without a port no event is added |
| Http.SuccessClearsGuard | task_http.go:191-211 | when every success follows a request prepared without error, a success leaves no count, no window and no pending trigger |
| Http.HttpEndpoint.Initialize | task_http.go:58-87 | refuses exactly the policies Validate refuses, which are listed by their fields, with its error; otherwise a coherent endpoint with an empty history |
| Http.HttpEndpoint.Execute | task_http.go:167-238 | one response per call, whose events are those `Calls` describes; DNS errors and fallbacks are its error and count as failures; a request that is sent goes to the current target; a success leaves the guard rail clear; a pending trigger is reported with the next answered request; an error comes with the decision of the last request that was not sent |
| Http.HttpEndpoint.Report | task_http.go:192-211 | the outcome is observed and reported, with the manager's last decision on errors |
| Interleaving.FreshUnderInterleaving | dns_policy_manager.go:241-314 | however requests interleave, one that skips the lookup gets the head of a delivered answer no later than its delivery plus its clamped TTL (at most TTLMax) or plus the cadence |
| Interleaving.CacheIsOneAnswer | dns_policy_manager.go:292-302 | at any time the cache is empty or holds one delivered answer with the expiry that answer gives; in TTL mode lookup time plus clamped TTL |
| Interleaving.CacheStaysFilled | dns_policy_manager.go:300-302 | once filled the cache is never empty again |
| Interleaving.LastLookupCanGoBack | dns_policy_manager.go:292-302 | the recorded lookup time is not monotone: a reachable state in which two requests sharing a lookup write in the other order |
| Interleaving.LookupTimeGoesBackIff | dns_policy_manager.go:292-302 | the recorded lookup time goes back in a reachable state if and only if, in TTL or cadence mode, an answer is stored by a request older than the one whose answer is cached |
| Interleaving.SingleChangesIff | dns_policy_manager.go:196-237 | in single-lookup mode the address at the head of a filled cache can still change if and only if some request found the cache empty and is about to look up, waits for a lookup under way, or has another answer coming |
| Interleaving.SingleLookupReplaced | dns_policy_manager.go:201-226 | a reachable state in which it does: a request that found the cache empty looks up again and replaces the first answer |
| Interleaving.Coalesced | dns_policy_manager.go:405-423 | never more than one lookup is under way, and all who wait for one under way wait for the same |
| Interleaving.NobodyIsStuck | dns_policy_manager.go:425-439 | a waiting request can hear its flight once it landed, and one that has heard can finish |
| Interleaving.RequestBounded | dns_policy_manager.go:84-159 | no request is set back: over any run it takes at most six steps and is prepared at most once |
| Interleaving.RequestCompletes | dns_policy_manager.go:84-159 | from every reachable state every request can be brought to its end, whatever its lookup brings, with nobody else moving |
| Interleaving.EnvironmentFree | dns_policy_manager.go:405-440 | requests may come in, time pass and outcomes be reported at any time; a waiting caller may give up, which leaves cache and lookup as they are |
| Interleaving.TriggersConserved | dns_policy_manager.go:501-530 | rises of the trigger = triggers reported by a prepared request + 1 if pending; rises of the force flag = flags taken by a resolve + 1 if pending |
| Interleaving.FirstPreparedFlushes | dns_policy_manager.go:99-156 | the first request prepared without error after a crossing reports it and flushes, however many fail in between |
| Interleaving.AnswerFlushes | dns_policy_manager.go:304-313 | a request whose lookup succeeded is dialled to the head of that answer and flushes when it is prepared, whatever happens in between |
| Interleaving.UndisturbedIsSequential | dns_policy_manager.go:241-302 | a request that needs a lookup and that nobody overtakes leaves the state the sequential history prescribes |
| Interleaving.CachedIsSequential | dns_policy_manager.go:246-264 | so does one that needs none, and it passes with the head of the last answer |
| Interleaving.SectionsAreEvents | dns_policy_manager.go:466-530 | preparing a request and reporting an outcome are each one event of the sequential history, whoever else is on the way |
| Correlation.Accounts | task_ws.go:378-482 | stored messages = inflight + matched; one response per handled frame and surfaced error |
| Correlation.AnsweredIff | task_ws.go:461-481 | a frame is matched if and only if its id was stored before and not matched since |
| Correlation.MatchedSend | task_ws.go:378-424 | a matched frame answers an earlier send and restores that send's original id and time |
| Correlation.AnsweredApart | task_ws.go:384 | no two frames are matched to the same send |
| WsSteps.SuccessCorrelated | task_ws.go:378-424 | in every reachable state each success on the channel carries the original id and send time of an earlier send |
| WsSteps.OneAnswerPerSend | task_ws.go:384-423 | a response answers one send only, and no send is answered by two responses |
| WsSteps.FirstReplyMatched | task_ws.go:761-772 | the first reply to a written id is matched and every further one is an unknown id |
| WsSteps.WsAccounting | task_ws.go:259-482 | stored = inflight + matched across reconnects; pump responses = frames read + surfaced read errors, at most one per connection |
| WsSteps.ConnectionLifeCycle | task_ws.go:176-247 | a connection has exactly one running pump, its own; no pump closes a connection installed after it started; every connection ever dialled but the current one is shut |
| WsSteps.ExitLeavesNil | task_ws.go:499-518 | a pump that ends on a read error leaves no connection |
| WsSteps.ReconnectWaitEnds | task_ws.go:220-233 | a reconnect waits for at most seven steps of the old pump, and four for each frame its reader still held; the pump always has a step no sender holds up |
| WsSteps.ReconnectCompletes | task_ws.go:215-247 | a reconnect under way can be completed by the pump and itself in a bounded number of steps; a successful dial leaves the next connection with its own pump, a failed one neither |
| WsSteps.StoredIsWritten | task_ws.go:742-772 | nothing takes the connection from a sender between storing and writing |
| WsSteps.AloneIsSequential | task_ws.go:504-530 | the pump's steps on one frame compose to one call of the handler: same log, same inflight messages, same verdict |
| WsSteps.SendIsSequential | task_ws.go:761-772 | a sender's steps compose to one send: same log, same inflight messages, and the id is out |
| WsSteps.PumpReady | task_ws.go:499-532 | in every reachable state the pump's next step is open to it: any frame of a live connection, any frame its reader still holds, any error |
| WsSteps.ConnectionUsable | task_ws.go:745-772 | over a connection that nobody replaces a sender can store under any fresh id, and the pump runs |
| WsSteps.ConnectionObtainable | task_ws.go:176-247 | a first connection can be made and a reconnect begun whenever nothing else goes on |
| WsSteps.ExchangeSucceeds | task_ws.go:378-424 | from every reachable state with such a connection: a message is sent, the first reply to it read and matched, and a success with its own id and send time comes out |
| WsSteps.ReadErrorEnds | task_ws.go:259-360 | a read error can be followed to its end: no connection, no pump, inflight messages kept, and exactly one response unless the code is 1000, 1001 or 1012 or the close was local |
| WsEndpoint.Endpoint.Connect | task_ws.go:176-201 | connects only when there is no connection, and starts its pump |
| WsEndpoint.Endpoint.CloseConn | task_ws.go:161-172 | shuts and forgets the connection |
| WsEndpoint.Endpoint.Reconnect | task_ws.go:215-247 | every older connection is shut before the new one; inflight messages stay; nothing happens if the old connection cannot be closed |
| WsEndpoint.Endpoint.Prepare | task_ws.go:670-706 | a request goes out under the temporary id, and putting the kept id back gives the original request; without a request the payload is unchanged; refused exactly when it cannot be decoded or encoded |
| WsEndpoint.Endpoint.Execute | task_ws.go:730-776 | reconnects first if needed; stores under the fresh id, then writes under it, so that the original id and send time are inflight under the id that went out; refuses and reports what cannot be prepared; sends nothing once closed |
| WsEndpoint.Endpoint.Send | task_ws.go:746-773 | the same for the part that holds the mutex |
| WsEndpoint.Endpoint.Close | task_ws.go:70-98 | closes for good, context included, if there is a connection and both telling the server and closing succeed; changes nothing otherwise |
| WsEndpoint.SendsAfterClose | task_ws.go:74-77 | after the server went away Close cancels nothing, and the next Execute dials and sends |
| WsEndpoint.Endpoint.StopPump | task_ws.go:504-507 | a pump that finds the endpoint closed ends and leaves any connection open |
| WsEndpoint.Endpoint.HandleJSONRPCResponse | task_ws.go:427-482 | one response per frame, and which: unparsable, empty, without id, of unknown id, or the restored reply to the inflight message, which alone leaves the map |
| WsEndpoint.Endpoint.ProcessInflightMessage | task_ws.go:378-424 | the message leaves the map even if its id cannot be restored |
| WsEndpoint.Endpoint.HandleReadError | task_ws.go:259-360 | codes 1000, 1001, 1012, local closes and everything after Close are quiet, anything else surfaces once; no connection is left |
| Pipeline.Conservation | wadjit.go:88-106 | nothing is lost, duplicated or reordered before cancellation; exported is always a prefix of gathered; after it at most one more is exported and one dropped |
| Pipeline.EverythingIsDelivered | wadjit.go:88-106 | from every reachable state before the cancellation a consumer that reads can be given everything gathered, in order, after which any producer can gather |
| Pipeline.SelectReady | wadjit.go:90-102 | what is open to the forwarder at its select, and to a producer |
| Pipeline.NoSendAfterClose | wadjit.go:200-233 | no reachable step sends on the closed export channel, which is closed at most once |
| Pipeline.CloseBounded | wadjit.go:200-233 | after cancellation every run has boundedly many steps of Close, forwarder and consumer |
| Pipeline.CloseProgresses | wadjit.go:200-233 | until Close is done it or the forwarder can step, or the forwarder waits for the consumer |
| Pipeline.CloseCompletes | wadjit.go:200-233 | with a consumer that reads, Close called in any reachable state can be completed in at most 16 steps and one per response buffered for export, with the export channel closed once |
| Pipeline.ListenForResponses | wadjit.go:88-106 | the loop exports what its selects forward and ends with the first that does not |
| Pipeline.ForwardedIsPrefix | wadjit.go:90-102 | what it exports are the responses, in order, of the longest prefix of passes that forward |
| Pipeline.StepsAreTheLoop | wadjit.go:88-106 | over any run the forwarder's interleaved steps export what that loop exports for what their selects found, and return when it does |
| Registry.Watcher.Validate | watcher.go:23-57 | no error exactly for a watcher with id, cadence, tasks and an open done channel whose tasks all validate; task errors come last, in order |
| Registry.Watcher.JoinErrors | watcher.go:65-71 | the errors of the tasks, in order |
| Registry.JoinedIs | watcher.go:65-71 | joining keeps the error of every task that has one, in task order |
| Registry.Watcher.Close | watcher.go:60-73 | closes an open done channel once and every task, whatever the others answer |
| Registry.Watcher.Start | watcher.go:93-115 | opens a missing done channel and starts every task |
| Registry.Wadjit.AddWatcher | wadjit.go:109-134 | admits a valid watcher under a new id only; a failed start or schedule leaves it registered without a job, with that error; a removed watcher is never re-admitted |
| Registry.Wadjit.RemoveWatcher | wadjit.go:161-178 | the watcher is gone and closed once whatever fails; the job only if nothing failed; the errors are its tasks', or else the scheduler's |
| Registry.Wadjit.WatcherIDs | wadjit.go:243-250 | the registered ids, each once |
| Registry.Wadjit.Clear | wadjit.go:182-197 | empties the registry and closes every watcher past failures; the jobs left behind are those whose removal failed; every removal's errors are returned, one after another |
| Registry.Wadjit.Close | wadjit.go:200-233 | the same, once, jobs and errors included; later calls change nothing and return the first errors |
| Resolver.SummaryUnique | dns_resolver.go:171-202 | a list of records has one summary, and its TTL fits a 64-bit duration |
| Resolver.SummaryIs | dns_resolver.go:171-214 | a summary by the records alone: the bytes of the A and AAAA records with 4 or 16 of them, in order, and the least of their positive TTLs in seconds, or 0 |
| Resolver.ParseAnswers | dns_resolver.go:171-202 | the addresses of exactly the records that carry one, in order, with the least positive TTL, 0 if none is positive; no answer exactly without addresses |
| Resolver.QueryType | dns_resolver.go:119-148 | the summary of the first server that answers with an address, or the error of the one that cut the query short, or none if all are passed over |
| Resolver.LookupWithTTL | dns_resolver.go:66-103 | the two nested minimums equal one summary of the concatenated A and AAAA answers; a query cut short gives its error |
| Resolver.Lookup | dns_resolver.go:36-63 | a literal needs no query; the system resolver is asked exactly when the queries gave no address |

## Left out

- Dialling, TLS, `http.Transport`, DNS exchange, WebSocket framing, JSON encoding and the job scheduler: their replies are parameters or nondeterministic choices.
- Redirects: an endpoint's requests all go to its one URL, so the cache's not being keyed by host does not show.
- The text of joined host and port, of errors and of log lines: a dial target is a pair, a joined error is the list of its parts.
- int64 overflow of times and durations, and saturation of time differences.
- A response body that is still open: `Transport.Carry` leaves the connection of a request idle or closed, as when the body is read before the next request.
- Overlapping Execute calls on one HTTP endpoint: `Interleaving` covers the manager's sections and the reported results, not the idle pool.
- WebSocket write failures: the error handler locks a mutex its caller already holds, so writes are assumed to succeed.
- WebSocket Close racing with reads or writes, and overlapping reconnects: guards of the steps exclude them. `WsEndpoint` has Close between calls.
- How many frames a closed connection's reader still holds: any number, chosen when a reconnect closes it.
- The order between the read pump's responses and the senders' error responses on the shared channel.
- Blocking on a full response channel inside tasks, and sends on a gather channel that Close has already closed: producers stop before it in the model.
- Concurrent use of the registry, watchers whose id changes, default policies applied to endpoints, pausing and resuming: calls are sequential and ids constant.
- One-shot WebSocket tasks, response bodies, timings and metadata: small flag machines and subtractions.
