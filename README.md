# Telecomm call routing: Switchboard and CallsManager

This project models the single-threaded call-routing bookkeeping of Android Telecomm in Dafny:

- **`Switchboard`** is the routing coordinator. It has:
  - two duplicate-free, ordered queues of outgoing calls, "new" and "pending";
  - the cached call services and selectors found by the last lookup cycle;
  - the lookup-cycle counter;
  - the binder deallocator's count of use permits.

  It queues outgoing calls and replaces its caches wholesale. It hands out at most one call per dispatch attempt, always the oldest new one and only when both caches are non-empty. It finalizes placed or failed calls and starts incoming-call retrieval. A tick expires calls that have waited too long, although nothing in the source ever schedules the first tick (see "## Left out").
- **`CallsManager`** is the call orchestrator. It has:
  - the registry of live calls keyed by call ID;
  - the arrival-ordered list of unanswered incoming calls, which decides what the ringer does.

  It gates new calls through validators and applies state changes reported by call services, allowing any transition. It silences and retargets the ringer as calls leave the unanswered list, and it unbinds the in-call app once the last call is gone.
- **`Call`** is a class whose state and call-service binding are updated in place.

Files:

- `calls.dfy`: module `Calls`, the call entity and the opaque values that travel with it.
- `collections.dfy`: module `Collections`, the Java collection operations the core uses, over sequences. `LinkedHashSet.add`, `LinkedHashSet.remove` and `LinkedList.remove(Object)` are modelled here. So is the stale-call filter with its properties, and the behaviour of a for-each loop that removes from the collection it walks.
- `switchboard.dfy`: module `Switchboard`, the class `Switchboard` with its invariants.
  - `Valid`: the queues are duplicate-free and disjoint.
  - `LeasesBalanced`: each permit is held by exactly one queued outgoing call or one running incoming retrieval.
- `calls_manager.dfy`: module `CallsManager`, the class `CallsManager` and the ringer rules. Its invariant `Valid` includes that the ringer is never left on once no call is unanswered. `RingerOn` reads the ringer's state off the event log. The module also holds scenarios that drive a sequence of incoming calls through the class's own methods.

The collaborators are modelled only through ghost event logs (`events`) of what they are told:
- the call-service and selector repositories, the outgoing- and incoming-calls managers and the binder deallocator;
- the ringer and the in-call controller;
- the call services behind `Call.answer`, `reject` and `disconnect`.

The binder deallocator also appears as the `permits` counter. The CallsManager owns its Switchboard and calls it directly. Calls in the other direction cannot be direct calls, because a module import cycle is not allowed. The Switchboard's reports back to the CallsManager (`handleSuccessfulOutgoingCall`, `handleSuccessfulIncomingCall`) are therefore events in the Switchboard's log.

Where the source's comments, or the behaviour one would expect of a call router, and the code disagree, the model follows the code:

- **At most one call in flight.** The comment at Switchboard.java:285-286 says calls are placed one at a time, so that call services need not handle concurrent requests. The code only moves one call per attempt. It never checks that the pending queue is empty, so a second lookup cycle that completes dispatches the next call while the first is still being placed. `Switchboard.TwoOutgoingCallsInFlight` proves that two calls end up pending together.
- **Ringer on leaving RINGING.** The documentation of `setCallState` (CallsManager.java:307-309) says it updates the ringer when a call leaves the RINGING state. Its body (CallsManager.java:314-335) never touches the ringer, and the model follows the body. So `MarkCallAsDialing` on a ringing, unanswered call leaves the ringer as it was.
- **Ringer while answered calls wait.** The ringer is never on while the unanswered list is empty: `CallsManager.Valid` holds this, and every method keeps it. The converse does not hold. `answerCall` and `rejectCall` silence the ringer for the head call at once (CallsManager.java:196, :218, :363-368). The call leaves the list only when its call service later reports it active or disconnected (:250, :262). The comment at :356-359 says this is deliberate. Until that report, the ringer is off while other calls are still listed, and nothing restarts it. `CallsManager.AnswerSilencesListedCalls` proves this.
- **`updateBinders` argument.** `setCallServices` gives the binder deallocator the set of call services being replaced, not the new one (Switchboard.java:168). The model does the same.

## Model

| member | source | states |
|---|---|---|
| Calls.Call.constructor | src/com/android/telecomm/CallsManager.java:167 | A new call carries the given ID, handle and contact information, starts in state New, and is bound to no call service. |
| Calls.CallServiceFor | src/com/android/telecomm/Switchboard.java:154 | The repository's lookup always yields a wrapper, and it wraps the descriptor it was given. |
| Collections.Add | src/com/android/telecomm/Switchboard.java:132 | LinkedHashSet.add appends the element at the end only when it is absent, otherwise leaves the set as it is, and keeps the sequence a set. |
| Collections.IndexOf | src/com/android/telecomm/CallsManager.java:346 | The position found holds the element and no earlier position does. |
| Collections.Remove | src/com/android/telecomm/Switchboard.java:309 | Removing an absent element changes nothing; removing a present one shortens the collection by exactly one. |
| Collections.RemoveNoDuplicates | src/com/android/telecomm/Switchboard.java:282 | Removing from a set keeps it a set and takes out exactly that element: y is left iff it was there and is not x. |
| Collections.RemoveFirstOccurrence | src/com/android/telecomm/CallsManager.java:346 | LinkedList.remove(Object) drops exactly the first occurrence; the elements before and after it keep their order. |
| Collections.RemoveAfterPrefix | src/com/android/telecomm/Switchboard.java:342 | Removing an element that follows a prefix without it leaves exactly that prefix followed by the suffix. |
| Collections.Filter | src/com/android/telecomm/Switchboard.java:330-355 | The calls of a queue that satisfy a predicate, in queue order; never longer than the queue. |
| Collections.FilterSubset | src/com/android/telecomm/Switchboard.java:337-342 | Every call the filter keeps was in the queue and satisfies the predicate. |
| Collections.FilterKeeps | src/com/android/telecomm/Switchboard.java:337-342 | No call that satisfies the predicate is dropped. |
| Collections.FilterStep | src/com/android/telecomm/Switchboard.java:337-342 | One step of the expiry walk: after visiting position i, the survivors of the visited part come first and the unvisited part follows untouched, and the collected expired calls grow by the visited call iff it is stale. |
| Collections.FilterNoDuplicates | src/com/android/telecomm/Switchboard.java:75-77 | Filtering a duplicate-free queue gives a duplicate-free queue. |
| Collections.FilterPartition | src/com/android/telecomm/Switchboard.java:339-352 | Each call is either kept or expired, so the survivors and the expired calls add up to the whole queue (one permit is released per expired call). |
| Collections.FilterCons | src/com/android/telecomm/Switchboard.java:336-338 | Filtering a queue with one more call at its head keeps that call at the head exactly when it satisfies the predicate. |
| Collections.RemoveWhileIterating | src/com/android/telecomm/Switchboard.java:336-343 | The expiry loop as written, with the fail-fast iterator: the calls left and the calls removed together are exactly the calls of the queue (as multisets), and at most one call is removed before the loop either ends or throws. |
| Collections.RemoveWhileIteratingCompletes | src/com/android/telecomm/Switchboard.java:336-343 | The loop as written runs to the end iff no call before the last one is stale. |
| Collections.RemoveWhileIteratingFilters | src/com/android/telecomm/Switchboard.java:336-343 | When the loop as written does run to the end, it leaves and removes exactly what the intended filter does. |
| Collections.RemoveWhileIteratingThrowsAt | src/com/android/telecomm/Switchboard.java:336-343 | When the first stale call is not the last call, the loop as written removes exactly that call, then throws, and leaves every other call queued in its order. |
| Switchboard.Increment | src/com/android/telecomm/Switchboard.java:135 | mLookupId++ on a Java int is one more modulo 2^32: below the maximum it is exactly one more, and the maximum wraps to the minimum. |
| Switchboard.IsTicking | src/com/android/telecomm/Switchboard.java:257-262 | Ticking never continues: the answer is always false. |
| Switchboard.Aborts | src/com/android/telecomm/Switchboard.java:340 | One abort per expired call, in the same order. |
| Switchboard.Switchboard.constructor | src/com/android/telecomm/Switchboard.java:75-97 | Both queues and both caches are empty, the lookup ID is 0, no permit is held and the invariants hold. |
| Switchboard.Switchboard.PlaceOutgoingCall | src/com/android/telecomm/Switchboard.java:120-138 | Acquires one permit, empties both caches, adds the call at the back of the new queue, increments the lookup ID by one (wrapping) and sends that same ID to both lookups; pending queue unchanged. |
| Switchboard.Switchboard.RetrieveIncomingCall | src/com/android/telecomm/Switchboard.java:150-157 | Acquires one permit held by this retrieval, binds the call to the repository's wrapper for the descriptor, and hands the call and its extras to the incoming-calls manager; queues and caches untouched, permits stay balanced. |
| Switchboard.Switchboard.SetCallServices | src/com/android/telecomm/Switchboard.java:167-173 | Gives the previous call-service set to updateBinders, replaces the cache wholesale with the argument, then makes exactly one dispatch attempt; invariants and permit balance preserved. |
| Switchboard.Switchboard.SetSelectors | src/com/android/telecomm/Switchboard.java:183-196 | Replaces the selector cache wholesale with the argument, then makes exactly one dispatch attempt; invariants and permit balance preserved. |
| Switchboard.Switchboard.HandleSuccessfulOutgoingCall | src/com/android/telecomm/Switchboard.java:202-207 | Requires a dialing call, as the CallsManager's report demands (CallsManager.java:180). Reports the call to the CallsManager, then finalizes it: it leaves the pending queue, one permit is released, and one further dispatch attempt follows. |
| Switchboard.Switchboard.HandleFailedOutgoingCall | src/com/android/telecomm/Switchboard.java:213-219 | Finalizes the call without any report: it leaves the pending queue, one permit is released, and one further dispatch attempt follows. |
| Switchboard.Switchboard.HandleSuccessfulIncomingCall | src/com/android/telecomm/Switchboard.java:226-231 | Requires a ringing call, as the CallsManager's report demands (CallsManager.java:125). Reports the call to the CallsManager and releases the retrieval's permit; queues and caches untouched, balance kept. |
| Switchboard.Switchboard.HandleFailedIncomingCall | src/com/android/telecomm/Switchboard.java:239-252 | Clears the call's binding and releases the retrieval's permit; nothing is reported; balance kept. |
| Switchboard.Switchboard.ProcessNewOutgoingCalls | src/com/android/telecomm/Switchboard.java:274-289 | With either cache empty, or no new call, nothing changes and no call is placed. Otherwise exactly the oldest new call moves to the end of the pending queue and is the only call handed to placeCall. Queues stay duplicate-free and disjoint. |
| Switchboard.Switchboard.ProcessNewOutgoingCall | src/com/android/telecomm/Switchboard.java:296-303 | Hands the call with the cached call services and selectors to the outgoing-calls manager, and changes nothing else. |
| Switchboard.Switchboard.FinalizeOutgoingCall | src/com/android/telecomm/Switchboard.java:308-313 | Removes the call from the pending queue, releases exactly one permit, then makes one dispatch attempt. |
| Switchboard.Switchboard.Tick | src/com/android/telecomm/Switchboard.java:318-323 | Both queues keep exactly their non-stale calls in their order; every stale call is aborted once, new queue first, and gives back one permit; invariants and balance preserved. |
| Switchboard.Switchboard.RunTicker | src/com/android/telecomm/Switchboard.java:65-73 | A run of the ticker is one tick and, since isTicking is always false (Switchboard.java:257-262), no re-schedule. |
| Switchboard.Switchboard.ExpireStaleOutgoingCalls | src/com/android/telecomm/Switchboard.java:330-355 | The chosen queue keeps exactly its calls younger than the timeout, in order; the other queue is unchanged; each stale call gets one abort, in queue order, and releases one permit. |
| Switchboard.ExpiryKeepsQueuesApart | src/com/android/telecomm/Switchboard.java:75-77 | Expiring from one queue keeps it duplicate-free and disjoint from the other queue, and each call either survives or is expired. |
| Switchboard.SplitStale | src/com/android/telecomm/Switchboard.java:336-343 | The walk over a queue snapshot that removes stale calls as it meets them results in exactly the filter of fresh calls, and collects exactly the stale calls in order. |
| Switchboard.TwoOutgoingCallsInFlight | src/com/android/telecomm/Switchboard.java:274-289 | Two placements, each followed by a completed lookup, leave both calls in the pending queue at once: dispatch does not wait for the pending queue to drain. |
| CallsManager.CheckValidators | src/com/android/telecomm/CallsManager.java:127-134 | The validator loop accepts iff every validator accepts the handle and contact information, and a rejection names a validator that objects. |
| CallsManager.RingerAfterRemoval | src/com/android/telecomm/CallsManager.java:347-351 | After the ringer is told about a removal, it is on iff some call is still unanswered, whether it was on before or not. |
| CallsManager.RingerStopFor | src/com/android/telecomm/CallsManager.java:363-368 | Never starts the ringer. It leaves a silent ringer silent, and silences a ringing one exactly when the call heads the unanswered list. |
| CallsManager.UnansweredAfterRemoval | src/com/android/telecomm/CallsManager.java:344-346 | An unregistered ID, or a call not in the list, leaves the list as it is. Otherwise the list loses exactly the call's first occurrence, and the calls before and after it keep their order. |
| CallsManager.RingerUpdate | src/com/android/telecomm/CallsManager.java:344-353 | No ringer event iff nothing was removed. Otherwise there is exactly one, after which the ringer is on iff the list that is left is non-empty. |
| CallsManager.CallsManager.constructor | src/com/android/telecomm/CallsManager.java:89-93 | An empty registry and unanswered list, and no events. The new Switchboard has empty queues and caches, lookup ID 0, no permit held, no retrieval running and no events. |
| CallsManager.CallsManager.ProcessIncomingCallIntent | src/com/android/telecomm/CallsManager.java:107-115 | Creates one fresh call with the given ID and no handle, and hands it to the Switchboard for retrieval, which binds it and takes one permit; outgoing queues, caches and lookup ID untouched. |
| CallsManager.CallsManager.HandleSuccessfulIncomingCall | src/com/android/telecomm/CallsManager.java:123-146 | Requires a ringing call. If any validator objects, the registry, the unanswered list and the ringer are unchanged. Otherwise the call is registered under its own ID, shown in the in-call app and appended to the unanswered list. The ringer starts iff the list now has exactly one entry, so the first unanswered call always turns it on. |
| CallsManager.CallsManager.ProcessOutgoingCallIntent | src/com/android/telecomm/CallsManager.java:157-169 | Creates no call and leaves the Switchboard untouched iff some validator objects. Otherwise exactly one fresh call with that handle and contact information is placed through the Switchboard. |
| CallsManager.CallsManager.HandleSuccessfulOutgoingCall | src/com/android/telecomm/CallsManager.java:176-182 | Requires a dialing call; registers it under its own ID and shows it in the in-call app, leaving the unanswered list alone. |
| CallsManager.CallsManager.AnswerCall | src/com/android/telecomm/CallsManager.java:191-204 | An unknown ID changes nothing. A known call is answered, and the ringer is stopped only when it is the head unanswered call. So afterwards the ringer is on iff it was on before and the call is not the head. Registry and list unchanged. |
| CallsManager.CallsManager.RejectCall | src/com/android/telecomm/CallsManager.java:213-221 | An unknown ID changes nothing. A known call is rejected, and the ringer is stopped only when it is the head unanswered call. So afterwards the ringer is on iff it was on before and the call is not the head. Registry and list unchanged. |
| CallsManager.CallsManager.DisconnectCall | src/com/android/telecomm/CallsManager.java:230-238 | An unknown ID changes nothing; a known call is asked to disconnect, and nothing else changes. |
| CallsManager.CallsManager.MarkCallAsRinging | src/com/android/telecomm/CallsManager.java:240-242 | A registered call is now ringing; its handle, contact information and call-service binding stay as they were. |
| CallsManager.CallsManager.MarkCallAsDialing | src/com/android/telecomm/CallsManager.java:244-246 | A registered call is now dialing; its handle, contact information and call-service binding stay as they were. |
| CallsManager.CallsManager.MarkCallAsActive | src/com/android/telecomm/CallsManager.java:248-252 | A registered call is active, with its handle, contact information and binding unchanged, and no longer unanswered; the ringer is retargeted as the removal rule says, and the in-call app is told; registry unchanged. |
| CallsManager.CallsManager.MarkCallAsDisconnected | src/com/android/telecomm/CallsManager.java:260-274 | The call is disconnected and unbound from its call service, with its handle and contact information unchanged. It is in neither the registry nor the unanswered list, and the ringer is retargeted. The in-call app is told, and unbound iff the registry is now empty. |
| CallsManager.CallsManager.UpdateInCall | src/com/android/telecomm/CallsManager.java:280-288 | With no live call the in-call app is unbound; otherwise exactly one addCall per live call is sent and nothing else. |
| CallsManager.CallsManager.AddCall | src/com/android/telecomm/CallsManager.java:295-298 | The call is registered under its own ID and shown in the in-call app. |
| CallsManager.CallsManager.AddInCallEntry | src/com/android/telecomm/CallsManager.java:303-305 | Exactly one addCall for the call reaches the in-call app. |
| CallsManager.CallsManager.SetCallState | src/com/android/telecomm/CallsManager.java:314-335 | Requires a non-empty ID. A registered call ends up in the requested state, and only its state changes; an unknown ID, or a call already in that state, changes nothing, so repeating it is harmless. |
| CallsManager.CallsManager.RemoveFromUnansweredCalls | src/com/android/telecomm/CallsManager.java:344-353 | The call leaves the unanswered list and the rest keep their order. When a call was removed, the ringer is afterwards on iff the list is still non-empty: stopped when it is empty, restarted otherwise. An unregistered or unlisted ID does nothing. |
| CallsManager.CallsManager.StopRingingFor | src/com/android/telecomm/CallsManager.java:363-368 | stopRinging fires iff the call is the head of the unanswered list; the list is not changed. |
| CallsManager.AnswerHeadCall | src/com/android/telecomm/CallsManager.java:191-204 | Answering the head unanswered call and then receiving its active report (CallsManager.java:248-252): the ringer is silenced, then retargeted to the next call or stopped, and the head is active and gone from the list. |
| CallsManager.AnswerSilencesListedCalls | src/com/android/telecomm/CallsManager.java:191-196 | Answering the head of a list of unanswered calls leaves the list as it was and the ringer off, so the ringer can be off while calls are unanswered. |
| CallsManager.RingerAppend | src/com/android/telecomm/CallsManager.java:344-368 | The ringer's state after a log and further events is the state those events produce, starting from the state the log left. |
| CallsManager.RejectHeadCall | src/com/android/telecomm/CallsManager.java:213-221 | Rejecting the head unanswered call and then receiving its disconnect report (CallsManager.java:260-274): the ringer is silenced, then retargeted, and the call leaves the list and the registry. |
| CallsManager.ThreeIncomingCalls | src/com/android/telecomm/CallsManager.java:139-145 | Three accepted incoming calls are listed in arrival order, and only the first starts the ringer. |
| CallsManager.AnswerRejectAnswer | src/com/android/telecomm/CallsManager.java:344-368 | With three calls unanswered: answer the first, reject the second, answer the third. The exact ringer and in-call event sequence is proved. The ringer is restarted twice for the new head call, and stopped at the end. |
| CallsManager.RingerFollowsUnansweredCalls | src/com/android/telecomm/CallsManager.java:60-67 | From an empty manager, three arrivals followed by answer, reject and answer produce exactly the expected sixteen ringer and in-call events. Two calls end active and one disconnected. |

## Left out

- The Handler / Looper / postDelayed scheduling and the mTicker Runnable plumbing are not modelled; a tick is a method call and `ScheduleNextTick` is the event that re-scheduling would log.
- Wall-clock age and `Timeouts` are parameters: `Tick` takes the age of every call and the timeout as natural numbers.
- Call-ID generation (a random UUID inside Call.java) is a parameter of the intent methods. Call.java is not part of this model otherwise: `answer`, `reject` and `disconnect` are events, and `setState`, `setCallService` and `clearCallService` are field writes.
- The internals of BinderDeallocator, CallServiceRepository, CallServiceSelectorRepository, OutgoingCallsManager, IncomingCallsManager, InCallController and Ringer are not modelled. Only what they are told is logged, and the deallocator's count is kept as `permits`.
- Validators are total predicates given to the constructor. The source never registers any validator, and has no code to do so.
- Bundle extras, descriptors, selectors and contact information are opaque values. `toCallInfo` payloads are reduced to the call itself.
- Logging, `ThreadUtil.checkOnMainThread`, the singleton `getInstance` and the unused adapter and log-manager fields are left out. `Preconditions.checkState` becomes a `requires`.
- Switchboard.Switchboard.ProcessNewOutgoingCall: passes the selector set itself. The source copies the HashSet into a list in whatever order the HashSet iterates, and the model does not fix that order.
- CallsManager.CallsManager.UpdateInCall: sends the live calls in an unspecified order, as iterating HashMap.values does, so its contract speaks of the sent events as a collection.
- Switchboard.Switchboard.PlaceOutgoingCall: keeps the queues disjoint only when the call is not already pending, and permits balanced only when the call is not already queued. The source does not check either, so those contracts are conditional.
- Switchboard.Switchboard.HandleSuccessfulOutgoingCall, Switchboard.Switchboard.HandleFailedOutgoingCall, Switchboard.Switchboard.FinalizeOutgoingCall, Switchboard.Switchboard.HandleSuccessfulIncomingCall, Switchboard.Switchboard.HandleFailedIncomingCall: keep permits balanced only when the call really held a permit. A stray report releases a permit nobody held, and the source does not guard against it.
- CallsManager.CallsManager.HandleSuccessfulIncomingCall: keeps the unanswered list duplicate-free only when the call is not already listed, since the source appends without checking.
- CallsManager.CallsManager.MarkCallAsDisconnected: requires the ID to be registered. With an unknown ID, the source dereferences the null result of `mCalls.remove` (CallsManager.java:264-267) and throws NullPointerException, and the model does not represent that crash.
- Collections.Filter: its contract only bounds the length. Membership and order facts are the lemmas FilterSubset, FilterKeeps, FilterCons, FilterNoDuplicates and FilterPartition.
- Switchboard.Switchboard.ExpireStaleOutgoingCalls: emits all aborts before releasing permits, and writes the queue back once the walk ends. The source interleaves abort, removal and release per call. No collaborator observes the difference, because the permit count is not an event.
- Nothing in the source ever schedules the first tick. `mTicker` is posted only by `scheduleNextTick` (Switchboard.java:267-269). Only `mTicker.run` calls `scheduleNextTick` (:69-70), and `isTicking` is always false. So as shipped, `tick()` and `expireStaleOutgoingCalls` never run, and no queued call is ever expired. `Tick`, `RunTicker` and `ExpireStaleOutgoingCalls` model what one tick would do if something posted it.
- Switchboard.Switchboard.SetCallServices: logs a snapshot of the call services given to `updateBinders`. The source passes the live `mCallServices` object (Switchboard.java:168), then clears and refills that same set (:170-171). A deallocator that kept the reference would see the new contents, not the replaced ones. The model does not capture this aliasing.
- Switchboard.Switchboard.ProcessNewOutgoingCall: logs a snapshot of the call services given to `placeCall`. The source passes the live `mCallServices` (Switchboard.java:302), which the next `placeOutgoingCall` clears (:129) and the next `setCallServices` refills. An outgoing-calls manager that kept the reference would see those later contents. The model does not capture this aliasing.
- Calls.CallServiceFor: `CallServiceRepository.getCallService` (Switchboard.java:154) is not part of this model. It is taken to always return a wrapper of the given descriptor. If it returned null, the source would bind the call to null, and the model does not represent that.
- The race between overlapping lookup cycles, where a late result from an earlier cycle is still accepted, is not modelled separately. Every completed lookup simply replaces its cache, which is what the code does.

## Findings

| source | as written | input that shows it | evidently intended | confidence | as-written member | corrected member |
|---|---|---|---|---|---|---|
| src/com/android/telecomm/Switchboard.java:336-343 | `calls.remove(call)` runs inside the iterator loop over the same LinkedHashSet, so the fail-fast iterator throws ConcurrentModificationException at the next `next()` after any removal that is not of the last element. | A queue holding two calls, both at or past the timeout: the first is aborted and removed, the next step throws, and the second stays queued with its permit held. | Every stale call is aborted and dequeued, with one permit released each; the others stay, in order. | not executed; latent, since nothing in the source posts `mTicker`, so the loop cannot run until something schedules the first tick | Collections.RemoveWhileIteratingThrowsAt | Switchboard.SplitStale |
