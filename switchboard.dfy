/** The Switchboard: gathers call services and selectors, queues outgoing calls until both are
    known, hands them one per attempt to the outgoing-calls manager, starts incoming-call retrieval,
    and expires calls that waited too long. Its collaborators (the two repositories, the outgoing
    and incoming calls managers, the binder deallocator and the CallsManager it reports back to) are
    seen only through the events it sends them and through the use-permit count. */
module Switchboard {
  import opened Calls
  import opened Collections

  /** Java's 32-bit `int`. */
  newtype int32 = x: int | -0x8000_0000 <= x < 0x8000_0000

  /** Java's `++` on an int: one more, wrapping from the largest value to the smallest. */
  function Increment(x: int32): (r: int32)
    ensures (r as int - x as int) % 0x1_0000_0000 == 1
    ensures x < 0x7fff_ffff ==> r as int == x as int + 1
  {
    if x == 0x7fff_ffff then -0x8000_0000 else x + 1
  }

  /** What the Switchboard tells its collaborators. */
  datatype Event =
    | InitiateCallServiceLookup(lookupId: int32)      // CallServiceRepository.initiateLookup
    | InitiateSelectorLookup(lookupId: int32)         // CallServiceSelectorRepository.initiateLookup
    | UpdateBinders(callServices: set<CallServiceWrapper>)  // BinderDeallocator.updateBinders
    | PlaceCall(call: Call, callServices: set<CallServiceWrapper>, selectors: set<Selector>)
    | Abort(call: Call)                               // OutgoingCallsManager.abort
    | RetrieveIncoming(call: Call, extras: Extras)     // IncomingCallsManager.retrieveIncomingCall
    | SuccessfulOutgoingCallReported(call: Call)      // CallsManager.handleSuccessfulOutgoingCall
    | SuccessfulIncomingCallReported(call: Call)      // CallsManager.handleSuccessfulIncomingCall
    | ScheduleNextTick

  /** The two outgoing-call queues, as the argument of the expiry pass. */
  datatype Queue = NewOutgoing | PendingOutgoing

  /** A call is stale once its age has reached the new-outgoing-call timeout. */
  function Stale(age: Call -> nat, timeout: nat): Call -> bool
  {
    (c: Call) => age(c) >= timeout
  }

  /** One abort per call, in order. */
  function Aborts(calls: seq<Call>): (r: seq<Event>)
    ensures |r| == |calls|
    ensures forall i :: 0 <= i < |calls| ==> r[i] == Abort(calls[i])
    decreases |calls|
  {
    if calls == [] then [] else Aborts(calls[..|calls| - 1]) + [Abort(calls[|calls| - 1])]
  }

  /** Whether the tick should be re-armed: never, so a tick is never followed by another. */
  predicate IsTicking(): (ticking: bool)
    ensures !ticking
  {
    false
  }

  class Switchboard {
    var newOutgoingCalls: seq<Call>
    var pendingOutgoingCalls: seq<Call>
    var callServices: set<CallServiceWrapper>
    var selectors: set<Selector>
    var lookupId: int32
    /** The binder deallocator's count of outstanding use permits. */
    var permits: int
    /** The calls whose incoming retrieval holds a permit. */
    ghost var incomingRetrievals: multiset<Call>
    ghost var events: seq<Event>

    /** Both queues are sets, and a call is in at most one of them. */
    ghost predicate Valid()
      reads this
    {
      && NoDuplicates(newOutgoingCalls)
      && NoDuplicates(pendingOutgoingCalls)
      && Disjoint(newOutgoingCalls, pendingOutgoingCalls)
    }

    /** Every permit is held by exactly one queued outgoing call or one incoming retrieval. */
    ghost predicate LeasesBalanced()
      reads this
    {
      permits == |newOutgoingCalls| + |pendingOutgoingCalls| + |incomingRetrievals|
    }

    /** The state after one dispatch attempt from queues new0 and pending0 and log events0, with
        the current caches: the oldest new call moves to the end of the pending queue and is
        handed to placeCall, provided both caches and the new queue are non-empty. */
    ghost predicate DispatchedFrom(new0: seq<Call>, pending0: seq<Call>, events0: seq<Event>)
      reads this
    {
      if callServices == {} || selectors == {} || new0 == [] then
        newOutgoingCalls == new0 && pendingOutgoingCalls == pending0 && events == events0
      else
        && newOutgoingCalls == new0[1..]
        && pendingOutgoingCalls == pending0 + [new0[0]]
        && events == events0 + [PlaceCall(new0[0], callServices, selectors)]
    }

    /** The state after expiring, from queues new0 and pending0, every call whose age has
        reached the timeout: survivors keep their order, each expired call is aborted once and
        gives back one permit. */
    ghost predicate TickedFrom(new0: seq<Call>, pending0: seq<Call>, permits0: int, events0: seq<Event>,
                               age: Call -> nat, timeout: nat)
      reads this
    {
      var stale := Stale(age, timeout);
      && newOutgoingCalls == Filter(new0, Not(stale))
      && pendingOutgoingCalls == Filter(pending0, Not(stale))
      && permits == permits0 - |Filter(new0, stale)| - |Filter(pending0, stale)|
      && events == events0 + Aborts(Filter(new0, stale)) + Aborts(Filter(pending0, stale))
    }

    constructor ()
      ensures Valid() && LeasesBalanced()
      ensures newOutgoingCalls == [] && pendingOutgoingCalls == []
      ensures callServices == {} && selectors == {}
      ensures lookupId == 0 && permits == 0
      ensures incomingRetrievals == multiset{} && events == []
    {
      newOutgoingCalls, pendingOutgoingCalls := [], [];
      callServices, selectors := {}, {};
      lookupId, permits := 0, 0;
      incomingRetrievals, events := multiset{}, [];
    }

    /** Queues an outgoing call and starts a fresh lookup of call services and selectors. */
    method PlaceOutgoingCall(call: Call)
      requires Valid()
      modifies this
      ensures call !in old(pendingOutgoingCalls) ==> Valid()
      ensures old(LeasesBalanced()) && call !in old(newOutgoingCalls) ==> LeasesBalanced()
      ensures newOutgoingCalls == Add(old(newOutgoingCalls), call)
      ensures pendingOutgoingCalls == old(pendingOutgoingCalls)
      ensures callServices == {} && selectors == {}
      ensures lookupId == Increment(old(lookupId))
      ensures permits == old(permits) + 1
      ensures incomingRetrievals == old(incomingRetrievals)
      ensures events == old(events) + [InitiateCallServiceLookup(lookupId), InitiateSelectorLookup(lookupId)]
    {
      permits := permits + 1;
      callServices := {};
      selectors := {};
      newOutgoingCalls := Add(newOutgoingCalls, call);
      lookupId := Increment(lookupId);
      events := events + [InitiateCallServiceLookup(lookupId), InitiateSelectorLookup(lookupId)];
    }

    /** Binds an incoming call to its call service and asks for the call's details. */
    method RetrieveIncomingCall(call: Call, descriptor: CallServiceDescriptor, extras: Extras)
      requires Valid()
      modifies this, call`callService
      ensures Valid()
      ensures old(LeasesBalanced()) ==> LeasesBalanced()
      ensures call.callService == Some(CallServiceFor(descriptor))
      ensures permits == old(permits) + 1
      ensures incomingRetrievals == old(incomingRetrievals) + multiset{call}
      ensures events == old(events) + [RetrieveIncoming(call, extras)]
      ensures newOutgoingCalls == old(newOutgoingCalls) && pendingOutgoingCalls == old(pendingOutgoingCalls)
      ensures callServices == old(callServices) && selectors == old(selectors) && lookupId == old(lookupId)
    {
      permits := permits + 1;
      incomingRetrievals := incomingRetrievals + multiset{call};
      call.callService := Some(CallServiceFor(descriptor));
      events := events + [RetrieveIncoming(call, extras)];
    }

    /** Replaces the cached call services wholesale, then attempts a dispatch. The binder
        deallocator is given the set being replaced. */
    method SetCallServices(newCallServices: set<CallServiceWrapper>)
      requires Valid()
      modifies this
      ensures Valid()
      ensures old(LeasesBalanced()) ==> LeasesBalanced()
      ensures callServices == newCallServices
      ensures DispatchedFrom(old(newOutgoingCalls), old(pendingOutgoingCalls), old(events) + [UpdateBinders(old(callServices))])
      ensures selectors == old(selectors) && lookupId == old(lookupId) && permits == old(permits)
      ensures incomingRetrievals == old(incomingRetrievals)
    {
      events := events + [UpdateBinders(callServices)];
      callServices := newCallServices;
      ProcessNewOutgoingCalls();
    }

    /** Replaces the cached selectors wholesale, then attempts a dispatch. */
    method SetSelectors(newSelectors: set<Selector>)
      requires Valid()
      modifies this
      ensures Valid()
      ensures old(LeasesBalanced()) ==> LeasesBalanced()
      ensures selectors == newSelectors
      ensures DispatchedFrom(old(newOutgoingCalls), old(pendingOutgoingCalls), old(events))
      ensures callServices == old(callServices) && lookupId == old(lookupId) && permits == old(permits)
      ensures incomingRetrievals == old(incomingRetrievals)
    {
      selectors := newSelectors;
      ProcessNewOutgoingCalls();
    }

    /** Reports a placed outgoing call to the CallsManager and finalizes it. The report
        demands that the call service has already moved the call to dialing. */
    method HandleSuccessfulOutgoingCall(call: Call)
      requires Valid() && call.state == Dialing
      modifies this
      ensures Valid()
      ensures old(LeasesBalanced()) && call in old(pendingOutgoingCalls) ==> LeasesBalanced()
      ensures permits == old(permits) - 1
      ensures DispatchedFrom(old(newOutgoingCalls), Remove(old(pendingOutgoingCalls), call),
                             old(events) + [SuccessfulOutgoingCallReported(call)])
      ensures callServices == old(callServices) && selectors == old(selectors) && lookupId == old(lookupId)
      ensures incomingRetrievals == old(incomingRetrievals)
    {
      events := events + [SuccessfulOutgoingCallReported(call)];
      FinalizeOutgoingCall(call);
    }

    /** Finalizes an outgoing call that no selector managed to place. */
    method HandleFailedOutgoingCall(call: Call)
      requires Valid()
      modifies this
      ensures Valid()
      ensures old(LeasesBalanced()) && call in old(pendingOutgoingCalls) ==> LeasesBalanced()
      ensures permits == old(permits) - 1
      ensures DispatchedFrom(old(newOutgoingCalls), Remove(old(pendingOutgoingCalls), call), old(events))
      ensures callServices == old(callServices) && selectors == old(selectors) && lookupId == old(lookupId)
      ensures incomingRetrievals == old(incomingRetrievals)
    {
      FinalizeOutgoingCall(call);
    }

    /** Reports a retrieved incoming call to the CallsManager and gives its permit back. The
        report demands that the call is ringing. */
    method HandleSuccessfulIncomingCall(call: Call)
      requires Valid() && call.state == Ringing
      modifies this
      ensures Valid()
      ensures old(LeasesBalanced()) && call in old(incomingRetrievals) ==> LeasesBalanced()
      ensures permits == old(permits) - 1
      ensures incomingRetrievals == old(incomingRetrievals) - multiset{call}
      ensures events == old(events) + [SuccessfulIncomingCallReported(call)]
      ensures newOutgoingCalls == old(newOutgoingCalls) && pendingOutgoingCalls == old(pendingOutgoingCalls)
      ensures callServices == old(callServices) && selectors == old(selectors) && lookupId == old(lookupId)
    {
      events := events + [SuccessfulIncomingCallReported(call)];
      permits := permits - 1;
      incomingRetrievals := incomingRetrievals - multiset{call};
    }

    /** Unbinds an incoming call whose retrieval failed and gives its permit back. */
    method HandleFailedIncomingCall(call: Call)
      requires Valid()
      modifies this, call`callService
      ensures Valid()
      ensures old(LeasesBalanced()) && call in old(incomingRetrievals) ==> LeasesBalanced()
      ensures call.callService == None
      ensures permits == old(permits) - 1
      ensures incomingRetrievals == old(incomingRetrievals) - multiset{call}
      ensures events == old(events)
      ensures newOutgoingCalls == old(newOutgoingCalls) && pendingOutgoingCalls == old(pendingOutgoingCalls)
      ensures callServices == old(callServices) && selectors == old(selectors) && lookupId == old(lookupId)
    {
      call.callService := None;
      permits := permits - 1;
      incomingRetrievals := incomingRetrievals - multiset{call};
    }

    /** Moves at most one call, the oldest new one, to the pending queue and places it; only
        when at least one call service and one selector are known. */
    method ProcessNewOutgoingCalls()
      requires Valid()
      modifies this
      ensures Valid()
      ensures old(LeasesBalanced()) ==> LeasesBalanced()
      ensures DispatchedFrom(old(newOutgoingCalls), old(pendingOutgoingCalls), old(events))
      ensures callServices == old(callServices) && selectors == old(selectors)
      ensures lookupId == old(lookupId) && permits == old(permits)
      ensures incomingRetrievals == old(incomingRetrievals)
    {
      if |callServices| == 0 || |selectors| == 0 {
        return;
      }
      if |newOutgoingCalls| != 0 {
        var call := newOutgoingCalls[0];
        assert call !in pendingOutgoingCalls;
        RemoveNoDuplicates(newOutgoingCalls, call);
        newOutgoingCalls := Remove(newOutgoingCalls, call);
        pendingOutgoingCalls := Add(pendingOutgoingCalls, call);
        ProcessNewOutgoingCall(call);
      }
    }

    /** Hands one call, with the cached call services and selectors, to the outgoing-calls manager. */
    method ProcessNewOutgoingCall(call: Call)
      modifies this`events
      ensures events == old(events) + [PlaceCall(call, callServices, selectors)]
    {
      events := events + [PlaceCall(call, callServices, selectors)];
    }

    /** Ends an outgoing call's sequence, successful or not: dequeues it from the pending queue,
        gives back its permit and attempts the next dispatch. */
    method FinalizeOutgoingCall(call: Call)
      requires Valid()
      modifies this
      ensures Valid()
      ensures old(LeasesBalanced()) && call in old(pendingOutgoingCalls) ==> LeasesBalanced()
      ensures permits == old(permits) - 1
      ensures DispatchedFrom(old(newOutgoingCalls), Remove(old(pendingOutgoingCalls), call), old(events))
      ensures callServices == old(callServices) && selectors == old(selectors) && lookupId == old(lookupId)
      ensures incomingRetrievals == old(incomingRetrievals)
    {
      RemoveNoDuplicates(pendingOutgoingCalls, call);
      pendingOutgoingCalls := Remove(pendingOutgoingCalls, call);
      permits := permits - 1;
      ProcessNewOutgoingCalls();
    }

    /** The periodic task: expires stale calls in both queues. */
    method Tick(age: Call -> nat, timeout: nat)
      requires Valid()
      modifies this`newOutgoingCalls, this`pendingOutgoingCalls, this`permits, this`events
      ensures Valid()
      ensures old(LeasesBalanced()) ==> LeasesBalanced()
      ensures TickedFrom(old(newOutgoingCalls), old(pendingOutgoingCalls), old(permits), old(events), age, timeout)
    {
      ExpireStaleOutgoingCalls(NewOutgoing, age, timeout);
      ExpireStaleOutgoingCalls(PendingOutgoing, age, timeout);
    }

    /** One run of the ticker: a tick, then a re-schedule if ticking should go on, which it never does. */
    method RunTicker(age: Call -> nat, timeout: nat)
      requires Valid()
      modifies this`newOutgoingCalls, this`pendingOutgoingCalls, this`permits, this`events
      ensures Valid()
      ensures old(LeasesBalanced()) ==> LeasesBalanced()
      ensures TickedFrom(old(newOutgoingCalls), old(pendingOutgoingCalls), old(permits), old(events), age, timeout)
    {
      Tick(age, timeout);
      events := events + if IsTicking() then [ScheduleNextTick] else [];
    }

    /** The contents of one of the two queues. */
    ghost function Queued(queue: Queue): seq<Call>
      reads this
    {
      if queue == NewOutgoing then newOutgoingCalls else pendingOutgoingCalls
    }

    /** Aborts and dequeues every stale call of one queue, giving back one permit for each; the
        other calls stay, in their order. */
    method ExpireStaleOutgoingCalls(queue: Queue, age: Call -> nat, timeout: nat)
      requires Valid()
      modifies this`newOutgoingCalls, this`pendingOutgoingCalls, this`permits, this`events
      ensures Valid()
      ensures old(LeasesBalanced()) ==> LeasesBalanced()
      ensures Queued(queue) == Filter(old(Queued(queue)), Not(Stale(age, timeout)))
      ensures queue == NewOutgoing ==> pendingOutgoingCalls == old(pendingOutgoingCalls)
      ensures queue == PendingOutgoing ==> newOutgoingCalls == old(newOutgoingCalls)
      ensures permits == old(permits) - |Filter(old(Queued(queue)), Stale(age, timeout))|
      ensures events == old(events) + Aborts(Filter(old(Queued(queue)), Stale(age, timeout)))
    {
      var calls := if queue == NewOutgoing then newOutgoingCalls else pendingOutgoingCalls;
      if |calls| == 0 {
        return;
      }
      var remaining, expired := SplitStale(calls, age, timeout);
      if queue == NewOutgoing {
        ExpiryKeepsQueuesApart(calls, pendingOutgoingCalls, Stale(age, timeout));
        newOutgoingCalls := remaining;
      } else {
        ExpiryKeepsQueuesApart(calls, newOutgoingCalls, Stale(age, timeout));
        pendingOutgoingCalls := remaining;
      }
      events := events + Aborts(expired);
      permits := permits - |expired|;
    }
  }

  /** Expiring calls from a queue keeps it free of duplicates and apart from the other queue,
      and each call either survives or gives back its permit. */
  lemma ExpiryKeepsQueuesApart(queue: seq<Call>, other: seq<Call>, stale: Call -> bool)
    requires NoDuplicates(queue) && Disjoint(queue, other) && Disjoint(other, queue)
    ensures NoDuplicates(Filter(queue, Not(stale)))
    ensures Disjoint(Filter(queue, Not(stale)), other) && Disjoint(other, Filter(queue, Not(stale)))
    ensures |Filter(queue, Not(stale))| + |Filter(queue, stale)| == |queue|
  {
    FilterNoDuplicates(queue, Not(stale));
    FilterSubset(queue, Not(stale));
    FilterPartition(queue, stale);
  }

  /** The iteration over a snapshot of a queue: every call whose age has reached the timeout is
      removed from the queue as it is met, and is collected, in order, to be aborted. */
  method SplitStale(calls: seq<Call>, age: Call -> nat, timeout: nat) returns (remaining: seq<Call>, expired: seq<Call>)
    requires NoDuplicates(calls)
    ensures remaining == Filter(calls, Not(Stale(age, timeout)))
    ensures expired == Filter(calls, Stale(age, timeout))
  {
    ghost var stale := Stale(age, timeout);
    remaining, expired := calls, [];
    var i := 0;
    while i < |calls|
      invariant 0 <= i <= |calls|
      invariant remaining == Filter(calls[..i], Not(stale)) + calls[i..]
      invariant expired == Filter(calls[..i], stale)
    {
      var call := calls[i];
      FilterStep(calls, i, remaining, stale);
      if age(call) >= timeout {
        expired := expired + [call];
        remaining := Remove(remaining, call);
      }
      i := i + 1;
    }
    assert calls[..i] == calls;
  }

  /** Nothing keeps a second outgoing call from being handed out while the first is still being
      placed: a new lookup cycle that completes dispatches the next call even though the pending
      queue is not empty. */
  method TwoOutgoingCallsInFlight(a: Call, b: Call, services: set<CallServiceWrapper>, sel: set<Selector>)
    returns (inFlight: seq<Call>)
    requires a != b && services != {} && sel != {}
    ensures inFlight == [a, b]
  {
    var switchboard := new Switchboard();
    switchboard.PlaceOutgoingCall(a);
    switchboard.SetCallServices(services);
    switchboard.SetSelectors(sel);
    switchboard.PlaceOutgoingCall(b);
    switchboard.SetCallServices(services);
    switchboard.SetSelectors(sel);
    inFlight := switchboard.pendingOutgoingCalls;
  }
}
