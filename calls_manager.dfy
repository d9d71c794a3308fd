/** The CallsManager: the registry of live calls keyed by call ID, the arrival-ordered list of
    unanswered incoming calls that decides what the ringer does, validator gating of new calls,
    and the entry points through which the in-call app and the call services drive call state.
    The ringer, the in-call controller and the call services behind `Call.answer`, `reject` and
    `disconnect` are seen only through the events sent to them. */
module CallsManager {
  import opened Calls
  import opened Collections
  import SB = Switchboard

  /** An incoming- or outgoing-call validator: may the call with this handle and contact go ahead? */
  type Validator = (Option<Handle>, Option<ContactInfo>) -> bool

  /** What the CallsManager tells the ringer, the in-call app and the calls' own services. */
  datatype Event =
    | StartRinging                        // Ringer.startRinging
    | StopRinging                         // Ringer.stopRinging
    | InCallAddCall(call: Call)           // InCallController.addCall
    | InCallMarkActive(callId: CallId)    // InCallController.markCallAsActive
    | InCallMarkDisconnected(callId: CallId)  // InCallController.markCallAsDisconnected
    | InCallUnbind                        // InCallController.unbind
    | Answer(call: Call)                  // Call.answer
    | Reject(call: Call)                  // Call.reject
    | Disconnect(call: Call)              // Call.disconnect

  /** Whether the ringer is on after these events, given whether it was on before them: the
      last ringer command decides, and without one the ringer stays as it was. */
  ghost predicate RingerFrom(on: bool, events: seq<Event>)
    decreases |events|
  {
    if events == [] then on
    else if events[|events| - 1] == StartRinging then true
    else if events[|events| - 1] == StopRinging then false
    else RingerFrom(on, events[..|events| - 1])
  }

  /** Whether the ringer is on after this whole log; it starts silent. */
  ghost predicate RingerOn(events: seq<Event>)
  {
    RingerFrom(false, events)
  }

  /** One more event: startRinging turns the ringer on, stopRinging turns it off, and any other
      event leaves it as it was. */
  lemma RingerOnSnoc(events: seq<Event>, e: Event)
    ensures RingerOn(events + [e]) == if e == StartRinging then true else if e == StopRinging then false else RingerOn(events)
  {
    assert (events + [e])[..|events|] == events;
  }

  /** The ringer after a log followed by more events is the ringer after those events, started
      in the state the log left it in. */
  lemma {:induction false} RingerAppend(log: seq<Event>, more: seq<Event>)
    ensures RingerOn(log + more) == RingerFrom(RingerOn(log), more)
    decreases |more|
  {
    if more == [] {
      assert log + more == log;
    } else {
      var init := more[..|more| - 1];
      RingerAppend(log, init);
      assert (log + more)[..|log + more| - 1] == log + init;
      assert (log + more)[|log + more| - 1] == more[|more| - 1];
    }
  }

  /** No validator objects to the call. */
  ghost predicate AllAccept(validators: seq<Validator>, handle: Option<Handle>, contactInfo: Option<ContactInfo>)
  {
    forall i :: 0 <= i < |validators| ==> validators[i](handle, contactInfo)
  }

  /** The validator loop: asks each validator in turn and stops at the first objection. */
  method CheckValidators(validators: seq<Validator>, handle: Option<Handle>, contactInfo: Option<ContactInfo>)
    returns (accepted: bool)
    ensures accepted <==> AllAccept(validators, handle, contactInfo)
    ensures !accepted ==> exists i :: 0 <= i < |validators| && !validators[i](handle, contactInfo)
  {
    for i := 0 to |validators|
      invariant forall k :: 0 <= k < i ==> validators[k](handle, contactInfo)
    {
      if !validators[i](handle, contactInfo) {
        return false;
      }
    }
    return true;
  }

  /** What the ringer is told when a call leaves a non-empty unanswered list: afterwards it is
      on exactly when some call is still unanswered, whether it was on before or not. */
  function RingerAfterRemoval(unanswered: seq<Call>): (e: Event)
    ensures RingerFrom(false, [e]) <==> unanswered != []
    ensures RingerFrom(true, [e]) <==> unanswered != []
  {
    if unanswered == [] then StopRinging else StartRinging
  }

  /** What the ringer is told when a call is asked to stop ringing: nothing that starts it, and
      a ringing ringer is silenced exactly when the call heads the unanswered list. */
  function RingerStopFor(unanswered: seq<Call>, call: Call): (r: seq<Event>)
    ensures |r| <= 1 && StartRinging !in r
    ensures !RingerFrom(false, r)
    ensures RingerFrom(true, r) <==> !(unanswered != [] && unanswered[0] == call)
  {
    if unanswered != [] && unanswered[0] == call then [StopRinging] else []
  }

  /** The unanswered list once the call registered under callId is taken out of it: the first
      (and, in a duplicate-free list, only) occurrence goes, the rest keep their order. An ID
      that is not registered, or whose call is not listed, changes nothing. */
  function UnansweredAfterRemoval(calls: map<CallId, Call>, callId: CallId, unanswered: seq<Call>): (r: seq<Call>)
    ensures callId !in calls || calls[callId] !in unanswered ==> r == unanswered
    ensures callId in calls && calls[callId] in unanswered ==>
      && |r| == |unanswered| - 1
      && r == unanswered[..IndexOf(unanswered, calls[callId])] + unanswered[IndexOf(unanswered, calls[callId]) + 1..]
  {
    if callId in calls && calls[callId] in unanswered then
      RemoveFirstOccurrence(unanswered, calls[callId]);
      Remove(unanswered, calls[callId])
    else unanswered
  }

  /** The ringer events that taking the call registered under callId out of the unanswered list
      produces: none if nothing was taken out; otherwise one, after which the ringer is on
      exactly when the list that is left is non-empty. */
  function RingerUpdate(calls: map<CallId, Call>, callId: CallId, unanswered: seq<Call>): (r: seq<Event>)
    ensures |r| <= 1
    ensures r == [] <==> callId !in calls || calls[callId] !in unanswered
    ensures r != [] ==> forall on :: RingerFrom(on, r) <==> UnansweredAfterRemoval(calls, callId, unanswered) != []
  {
    if callId in calls && calls[callId] in unanswered then [RingerAfterRemoval(Remove(unanswered, calls[callId]))] else []
  }

  class CallsManager {
    const switchboard: SB.Switchboard
    /** The validators consulted before an outgoing or an accepted incoming call goes ahead. */
    const outgoingCallValidators: seq<Validator>
    const incomingCallValidators: seq<Validator>
    /** The live calls, keyed by call ID. */
    var calls: map<CallId, Call>
    /** The unanswered incoming calls, oldest first; the head one owns the ringer. */
    var unansweredIncomingCalls: seq<Call>
    ghost var events: seq<Event>

    /** Every call is registered under its own ID, no unanswered call is listed twice, the
        ringer is never left on once no call is unanswered, and the Switchboard's queues are
        well formed. */
    ghost predicate Valid()
      reads this, switchboard
    {
      && (forall id :: id in calls ==> calls[id].id == id)
      && NoDuplicates(unansweredIncomingCalls)
      && (RingerOn(events) ==> unansweredIncomingCalls != [])
      && switchboard.Valid()
    }

    constructor (outgoingCallValidators: seq<Validator>, incomingCallValidators: seq<Validator>)
      ensures Valid() && fresh(switchboard)
      ensures this.outgoingCallValidators == outgoingCallValidators
      ensures this.incomingCallValidators == incomingCallValidators
      ensures calls == map[] && unansweredIncomingCalls == [] && events == []
      ensures switchboard.LeasesBalanced() && switchboard.events == []
      ensures switchboard.newOutgoingCalls == [] && switchboard.pendingOutgoingCalls == []
      ensures switchboard.callServices == {} && switchboard.selectors == {}
      ensures switchboard.lookupId == 0 && switchboard.permits == 0
      ensures switchboard.incomingRetrievals == multiset{}
    {
      switchboard := new SB.Switchboard();
      this.outgoingCallValidators := outgoingCallValidators;
      this.incomingCallValidators := incomingCallValidators;
      calls, unansweredIncomingCalls, events := map[], [], [];
    }

    /** Starts the incoming-call sequence: a call with a fresh ID and no handle goes to the
        Switchboard for retrieval through the given call service. */
    method ProcessIncomingCallIntent(descriptor: CallServiceDescriptor, extras: Extras, callId: CallId)
      returns (call: Call)
      requires Valid()
      modifies switchboard
      ensures Valid()
      ensures fresh(call) && call.id == callId && call.handle == None && call.contactInfo == None
      ensures call.state == New && call.callService == Some(CallServiceFor(descriptor))
      ensures switchboard.events == old(switchboard.events) + [SB.RetrieveIncoming(call, extras)]
      ensures switchboard.permits == old(switchboard.permits) + 1
      ensures switchboard.incomingRetrievals == old(switchboard.incomingRetrievals) + multiset{call}
      ensures old(switchboard.LeasesBalanced()) ==> switchboard.LeasesBalanced()
      ensures switchboard.newOutgoingCalls == old(switchboard.newOutgoingCalls)
      ensures switchboard.pendingOutgoingCalls == old(switchboard.pendingOutgoingCalls)
      ensures switchboard.callServices == old(switchboard.callServices)
      ensures switchboard.selectors == old(switchboard.selectors)
      ensures switchboard.lookupId == old(switchboard.lookupId)
    {
      call := new Call(callId, None, None);
      switchboard.RetrieveIncomingCall(call, descriptor, extras);
    }

    /** Records a retrieved incoming call unless a validator objects: it is registered, shown in
        the in-call app and queued as unanswered, and the ringer starts if it is the only one. */
    method HandleSuccessfulIncomingCall(call: Call)
      requires Valid()
      requires call.state == Ringing
      modifies this
      ensures call !in old(unansweredIncomingCalls) ==> Valid()
      ensures !AllAccept(incomingCallValidators, call.handle, call.contactInfo) ==>
        calls == old(calls) && unansweredIncomingCalls == old(unansweredIncomingCalls) && events == old(events)
      ensures AllAccept(incomingCallValidators, call.handle, call.contactInfo) ==>
        && calls == old(calls)[call.id := call]
        && unansweredIncomingCalls == old(unansweredIncomingCalls) + [call]
        && events == old(events) + [InCallAddCall(call)]
                     + (if |unansweredIncomingCalls| == 1 then [StartRinging] else [])
        && (old(unansweredIncomingCalls) == [] ==> RingerOn(events))
        && (RingerOn(events) <==> RingerOn(old(events)) || old(unansweredIncomingCalls) == [])
    {
      var accepted := CheckValidators(incomingCallValidators, call.handle, call.contactInfo);
      if !accepted {
        return;
      }
      AddCall(call);
      unansweredIncomingCalls := unansweredIncomingCalls + [call];
      if |unansweredIncomingCalls| == 1 {
        events := events + [StartRinging];
      }
    }

    /** Creates and places an outgoing call unless a validator objects. */
    method ProcessOutgoingCallIntent(handle: Option<Handle>, contactInfo: Option<ContactInfo>, callId: CallId)
      returns (placed: Option<Call>)
      requires Valid()
      modifies switchboard
      ensures placed.None? <==> !AllAccept(outgoingCallValidators, handle, contactInfo)
      ensures placed.None? ==> unchanged(switchboard)
      ensures placed.Some? ==>
        && fresh(placed.value)
        && placed.value.id == callId && placed.value.handle == handle && placed.value.contactInfo == contactInfo
        && placed.value.state == New && placed.value.callService == None
        && switchboard.newOutgoingCalls == old(switchboard.newOutgoingCalls) + [placed.value]
        && switchboard.pendingOutgoingCalls == old(switchboard.pendingOutgoingCalls)
        && switchboard.permits == old(switchboard.permits) + 1
        && switchboard.incomingRetrievals == old(switchboard.incomingRetrievals)
        && switchboard.lookupId == SB.Increment(old(switchboard.lookupId))
        && switchboard.callServices == {} && switchboard.selectors == {}
        && switchboard.events == old(switchboard.events)
             + [SB.InitiateCallServiceLookup(switchboard.lookupId), SB.InitiateSelectorLookup(switchboard.lookupId)]
        && (old(switchboard.LeasesBalanced()) ==> switchboard.LeasesBalanced())
      ensures Valid()
    {
      var accepted := CheckValidators(outgoingCallValidators, handle, contactInfo);
      if !accepted {
        return None;
      }
      var call := new Call(callId, handle, contactInfo);
      switchboard.PlaceOutgoingCall(call);
      return Some(call);
    }

    /** Records a placed outgoing call, which its call service has already moved to dialing. */
    method HandleSuccessfulOutgoingCall(call: Call)
      requires Valid()
      requires call.state == Dialing
      modifies this
      ensures Valid()
      ensures calls == old(calls)[call.id := call]
      ensures unansweredIncomingCalls == old(unansweredIncomingCalls)
      ensures events == old(events) + [InCallAddCall(call)]
    {
      AddCall(call);
    }

    /** Answers a known call; its ringing stops if it is the head unanswered call. The list
        itself is left alone until the call is reported active. */
    method AnswerCall(callId: CallId)
      requires Valid()
      modifies this
      ensures Valid()
      ensures calls == old(calls) && unansweredIncomingCalls == old(unansweredIncomingCalls)
      ensures callId !in calls ==> events == old(events)
      ensures callId in calls ==>
        events == old(events) + RingerStopFor(unansweredIncomingCalls, calls[callId]) + [Answer(calls[callId])]
      ensures RingerOn(events) <==>
        RingerOn(old(events)) && !(callId in calls && unansweredIncomingCalls != [] && unansweredIncomingCalls[0] == calls[callId])
    {
      if callId in calls {
        var call := calls[callId];
        StopRingingFor(call);
        RingerOnSnoc(events, Answer(call));
        events := events + [Answer(call)];
      }
    }

    /** Rejects a known call; its ringing stops if it is the head unanswered call. */
    method RejectCall(callId: CallId)
      requires Valid()
      modifies this
      ensures Valid()
      ensures calls == old(calls) && unansweredIncomingCalls == old(unansweredIncomingCalls)
      ensures callId !in calls ==> events == old(events)
      ensures callId in calls ==>
        events == old(events) + RingerStopFor(unansweredIncomingCalls, calls[callId]) + [Reject(calls[callId])]
      ensures RingerOn(events) <==>
        RingerOn(old(events)) && !(callId in calls && unansweredIncomingCalls != [] && unansweredIncomingCalls[0] == calls[callId])
    {
      if callId in calls {
        var call := calls[callId];
        StopRingingFor(call);
        RingerOnSnoc(events, Reject(call));
        events := events + [Reject(call)];
      }
    }

    /** Asks the call service of a known call to disconnect it. */
    method DisconnectCall(callId: CallId)
      requires Valid()
      modifies this
      ensures Valid()
      ensures calls == old(calls) && unansweredIncomingCalls == old(unansweredIncomingCalls)
      ensures callId !in calls ==> events == old(events)
      ensures callId in calls ==> events == old(events) + [Disconnect(calls[callId])]
    {
      if callId in calls {
        RingerOnSnoc(events, Disconnect(calls[callId]));
        events := events + [Disconnect(calls[callId])];
      }
    }

    method MarkCallAsRinging(callId: CallId)
      requires Valid() && callId != ""
      modifies if callId in calls then {calls[callId]} else {}
      ensures Valid()
      ensures callId in calls ==> calls[callId].state == Ringing
      ensures callId in calls ==> calls[callId].handle == old(calls[callId].handle)
      ensures callId in calls ==> calls[callId].contactInfo == old(calls[callId].contactInfo)
      ensures callId in calls ==> calls[callId].callService == old(calls[callId].callService)
    {
      SetCallState(callId, Ringing);
    }

    method MarkCallAsDialing(callId: CallId)
      requires Valid() && callId != ""
      modifies if callId in calls then {calls[callId]} else {}
      ensures Valid()
      ensures callId in calls ==> calls[callId].state == Dialing
      ensures callId in calls ==> calls[callId].handle == old(calls[callId].handle)
      ensures callId in calls ==> calls[callId].contactInfo == old(calls[callId].contactInfo)
      ensures callId in calls ==> calls[callId].callService == old(calls[callId].callService)
    {
      SetCallState(callId, Dialing);
    }

    /** The call service reports the call active: it is no longer unanswered, and the in-call
        app is told. */
    method MarkCallAsActive(callId: CallId)
      requires Valid() && callId != ""
      modifies this, if callId in calls then {calls[callId]} else {}
      ensures Valid()
      ensures calls == old(calls)
      ensures callId in calls ==> calls[callId].state == Active && calls[callId] !in unansweredIncomingCalls
      ensures callId in calls ==> calls[callId].handle == old(calls[callId].handle)
      ensures callId in calls ==> calls[callId].contactInfo == old(calls[callId].contactInfo)
      ensures callId in calls ==> calls[callId].callService == old(calls[callId].callService)
      ensures unansweredIncomingCalls == UnansweredAfterRemoval(old(calls), callId, old(unansweredIncomingCalls))
      ensures events == old(events) + RingerUpdate(old(calls), callId, old(unansweredIncomingCalls)) + [InCallMarkActive(callId)]
    {
      SetCallState(callId, Active);
      RemoveFromUnansweredCalls(callId);
      RingerOnSnoc(events, InCallMarkActive(callId));
      events := events + [InCallMarkActive(callId)];
    }

    /** The call service reports the call disconnected: it leaves the unanswered list and the
        registry, loses its call service, and the in-call app is told, and unbound once no live
        call is left. The ID must be registered. */
    method MarkCallAsDisconnected(callId: CallId)
      requires Valid() && callId != "" && callId in calls
      modifies this, calls[callId]
      ensures Valid()
      ensures old(calls[callId]).state == Disconnected && old(calls[callId]).callService == None
      ensures old(calls[callId]).handle == old(calls[callId].handle)
      ensures old(calls[callId]).contactInfo == old(calls[callId].contactInfo)
      ensures old(calls[callId]) !in unansweredIncomingCalls
      ensures calls == old(calls) - {callId}
      ensures unansweredIncomingCalls == Remove(old(unansweredIncomingCalls), old(calls[callId]))
      ensures events == old(events) + RingerUpdate(old(calls), callId, old(unansweredIncomingCalls))
                        + [InCallMarkDisconnected(callId)] + (if calls == map[] then [InCallUnbind] else [])
    {
      var call := calls[callId];
      SetCallState(callId, Disconnected);
      RemoveFromUnansweredCalls(callId);
      calls := calls - {callId};
      call.callService := None;
      RingerOnSnoc(events, InCallMarkDisconnected(callId));
      events := events + [InCallMarkDisconnected(callId)];
      if calls == map[] {
        RingerOnSnoc(events, InCallUnbind);
        events := events + [InCallUnbind];
      }
    }

    /** Shows every live call in the in-call app, in no particular order, or unbinds the in-call
        app when there is none. */
    method UpdateInCall()
      requires Valid()
      modifies this`events
      ensures Valid()
      ensures |old(events)| <= |events| && events[..|old(events)|] == old(events)
      ensures calls == map[] ==> events == old(events) + [InCallUnbind]
      ensures calls != map[] ==> AddsExactly(events[|old(events)|..], calls)
    {
      if calls == map[] {
        RingerOnSnoc(events, InCallUnbind);
        events := events + [InCallUnbind];
        return;
      }
      var remaining := calls.Keys;
      ghost var added: seq<Event> := [];
      ghost var events0 := events;
      while remaining != {}
        invariant remaining <= calls.Keys
        invariant events == events0 + added
        invariant RingerOn(events) == RingerOn(events0)
        invariant |added| == |calls.Keys| - |remaining|
        invariant forall e :: e in added ==> e.InCallAddCall? && e.call.id in calls.Keys - remaining && calls[e.call.id] == e.call
        invariant forall id :: id in calls.Keys - remaining ==> InCallAddCall(calls[id]) in added
        decreases |remaining|
      {
        var id :| id in remaining;
        RingerOnSnoc(events, InCallAddCall(calls[id]));
        AddInCallEntry(calls[id]);
        added := added + [InCallAddCall(calls[id])];
        remaining := remaining - {id};
      }
      assert calls.Keys - remaining == calls.Keys;
      assert events[|events0|..] == added;
    }

    /** The events of one in-call refresh: one addCall per live call, and nothing else. */
    ghost predicate AddsExactly(added: seq<Event>, live: map<CallId, Call>)
    {
      && |added| == |live|
      && (forall e :: e in added ==> e.InCallAddCall? && e.call.id in live && live[e.call.id] == e.call)
      && (forall id :: id in live ==> InCallAddCall(live[id]) in added)
    }

    /** Registers a call under its own ID and shows it in the in-call app. */
    method AddCall(call: Call)
      requires Valid()
      modifies this`calls, this`events
      ensures Valid()
      ensures calls == old(calls)[call.id := call]
      ensures events == old(events) + [InCallAddCall(call)]
    {
      calls := calls[call.id := call];
      RingerOnSnoc(events, InCallAddCall(call));
      AddInCallEntry(call);
    }

    method AddInCallEntry(call: Call)
      modifies this`events
      ensures events == old(events) + [InCallAddCall(call)]
    {
      events := events + [InCallAddCall(call)];
    }

    /** Moves a registered call to the given state; any transition is allowed, and an unknown ID
        or a call already in that state changes nothing. */
    method SetCallState(callId: CallId, newState: CallState)
      requires callId != ""
      modifies if callId in calls then {calls[callId]} else {}
      ensures callId in calls ==> calls[callId].state == newState
      ensures callId in calls ==> calls[callId].handle == old(calls[callId].handle)
      ensures callId in calls ==> calls[callId].contactInfo == old(calls[callId].contactInfo)
      ensures callId in calls ==> calls[callId].callService == old(calls[callId].callService)
      ensures callId !in calls || old(calls[callId].state) == newState ==> unchanged(if callId in calls then {calls[callId]} else {})
    {
      if callId in calls {
        var call := calls[callId];
        if newState != call.state {
          call.state := newState;
        }
      }
    }

    /** Takes a registered call out of the unanswered list, if it is there, and retargets the
        ringer: stop if the list is now empty, otherwise ring for the new head. */
    method RemoveFromUnansweredCalls(callId: CallId)
      requires Valid()
      modifies this`unansweredIncomingCalls, this`events
      ensures Valid()
      ensures unansweredIncomingCalls == UnansweredAfterRemoval(old(calls), callId, old(unansweredIncomingCalls))
      ensures events == old(events) + RingerUpdate(old(calls), callId, old(unansweredIncomingCalls))
      ensures callId in calls ==> calls[callId] !in unansweredIncomingCalls
      ensures callId in calls && calls[callId] in old(unansweredIncomingCalls) ==>
        (RingerOn(events) <==> unansweredIncomingCalls != [])
    {
      if callId in calls && calls[callId] in unansweredIncomingCalls {
        var call := calls[callId];
        RemoveNoDuplicates(unansweredIncomingCalls, call);
        unansweredIncomingCalls := Remove(unansweredIncomingCalls, call);
        RingerOnSnoc(events, RingerAfterRemoval(unansweredIncomingCalls));
        events := events + [RingerAfterRemoval(unansweredIncomingCalls)];
      }
    }

    /** Stops the ringer if this call is the head unanswered call; the list is not changed. */
    method StopRingingFor(call: Call)
      modifies this`events
      ensures events == old(events) + RingerStopFor(unansweredIncomingCalls, call)
      ensures RingerOn(events) <==> RingerOn(old(events)) && RingerStopFor(unansweredIncomingCalls, call) == []
    {
      if unansweredIncomingCalls != [] && unansweredIncomingCalls[0] == call {
        RingerOnSnoc(events, StopRinging);
        events := events + [StopRinging];
      }
    }
  }

  /** The head unanswered call is answered and then reported active: the ringer is silenced for
      it, and then retargeted to the next unanswered call, or stopped if there is none. */
  method AnswerHeadCall(manager: CallsManager, head: Call, rest: seq<Call>)
    requires manager.Valid() && head.id != ""
    requires manager.unansweredIncomingCalls == [head] + rest
    requires head.id in manager.calls && manager.calls[head.id] == head
    modifies manager, head
    ensures manager.Valid()
    ensures manager.unansweredIncomingCalls == rest && manager.calls == old(manager.calls)
    ensures manager.events == old(manager.events) + [StopRinging, Answer(head), RingerAfterRemoval(rest), InCallMarkActive(head.id)]
    ensures head.state == Active
  {
    manager.AnswerCall(head.id);
    assert Remove([head] + rest, head) == rest;
    manager.MarkCallAsActive(head.id);
  }

  /** Answering the head unanswered call silences the ringer at once, and the call stays listed
      until its call service reports it active or disconnected: with other calls waiting, the
      ringer is off while the unanswered list is not empty. */
  method AnswerSilencesListedCalls(manager: CallsManager, head: Call, rest: seq<Call>)
    requires manager.Valid()
    requires manager.unansweredIncomingCalls == [head] + rest
    requires head.id in manager.calls && manager.calls[head.id] == head
    modifies manager
    ensures manager.Valid()
    ensures manager.unansweredIncomingCalls == [head] + rest
    ensures !RingerOn(manager.events)
  {
    manager.AnswerCall(head.id);
  }

  /** The head unanswered call is rejected and then reported disconnected: the ringer is
      silenced for it, and then retargeted to the next unanswered call, or stopped if there is
      none; the call is no longer live. */
  method RejectHeadCall(manager: CallsManager, head: Call, rest: seq<Call>)
    requires manager.Valid() && head.id != ""
    requires manager.unansweredIncomingCalls == [head] + rest
    requires head.id in manager.calls && manager.calls[head.id] == head
    modifies manager, head
    ensures manager.Valid()
    ensures manager.unansweredIncomingCalls == rest && manager.calls == old(manager.calls) - {head.id}
    ensures manager.events == old(manager.events) + [StopRinging, Reject(head), RingerAfterRemoval(rest), InCallMarkDisconnected(head.id)]
                              + (if manager.calls == map[] then [InCallUnbind] else [])
    ensures head.state == Disconnected && head.callService == None
  {
    manager.RejectCall(head.id);
    assert Remove([head] + rest, head) == rest;
    manager.MarkCallAsDisconnected(head.id);
  }

  /** Three incoming calls are accepted, in the order a, b, c, by a manager without validators:
      all three are live and unanswered, and only the first one starts the ringer. */
  method ThreeIncomingCalls(a: Call, b: Call, c: Call) returns (manager: CallsManager)
    requires a.state == Ringing && b.state == Ringing && c.state == Ringing
    requires a.id != b.id && b.id != c.id && a.id != c.id
    ensures fresh(manager) && manager.Valid()
    ensures manager.calls == map[a.id := a, b.id := b, c.id := c]
    ensures manager.unansweredIncomingCalls == [a, b, c]
    ensures manager.events == [InCallAddCall(a), StartRinging, InCallAddCall(b), InCallAddCall(c)]
  {
    manager := new CallsManager([], []);
    manager.HandleSuccessfulIncomingCall(a);
    manager.HandleSuccessfulIncomingCall(b);
    manager.HandleSuccessfulIncomingCall(c);
  }

  /** With a, b and c unanswered in that order, a is answered and goes active, b is rejected
      and goes away, and c is answered and goes active. Answering or rejecting the head call
      silences the ringer, and each removal from the unanswered list retargets it to the new
      head call, or stops it once the list is empty. */
  method AnswerRejectAnswer(manager: CallsManager, a: Call, b: Call, c: Call)
    requires manager.Valid()
    requires a.id != "" && b.id != "" && c.id != ""
    requires a.id != b.id && b.id != c.id && a.id != c.id
    requires manager.calls == map[a.id := a, b.id := b, c.id := c]
    requires manager.unansweredIncomingCalls == [a, b, c]
    modifies manager, a, b, c
    ensures manager.events == old(manager.events) + [
      StopRinging, Answer(a), StartRinging, InCallMarkActive(a.id),
      StopRinging, Reject(b), StartRinging, InCallMarkDisconnected(b.id),
      StopRinging, Answer(c), StopRinging, InCallMarkActive(c.id)]
    ensures manager.calls == map[a.id := a, c.id := c] && manager.unansweredIncomingCalls == []
    ensures a.state == Active && b.state == Disconnected && c.state == Active
  {
    ghost var log := manager.events;
    assert manager.unansweredIncomingCalls == [a] + [b, c];
    AnswerHeadCall(manager, a, [b, c]);
    assert manager.events == log + [StopRinging, Answer(a), StartRinging, InCallMarkActive(a.id)];
    log := manager.events;
    assert manager.unansweredIncomingCalls == [b] + [c];
    RejectHeadCall(manager, b, [c]);
    assert manager.calls.Keys == {a.id, c.id} && manager.calls[a.id] == a && manager.calls[c.id] == c;
    assert manager.calls == map[a.id := a, c.id := c];
    assert manager.events == log + [StopRinging, Reject(b), StartRinging, InCallMarkDisconnected(b.id)];
    log := manager.events;
    assert manager.unansweredIncomingCalls == [c] + [];
    AnswerHeadCall(manager, c, []);
    assert manager.events == log + [StopRinging, Answer(c), StopRinging, InCallMarkActive(c.id)];
  }

  /** The ringer story end to end: three incoming calls arrive in the order a, b, c, then a is
      answered, b rejected and c answered. */
  method RingerFollowsUnansweredCalls(a: Call, b: Call, c: Call) returns (manager: CallsManager)
    requires a.state == Ringing && b.state == Ringing && c.state == Ringing
    requires a.id != "" && b.id != "" && c.id != ""
    requires a.id != b.id && b.id != c.id && a.id != c.id
    modifies a, b, c
    ensures manager.events == [
      InCallAddCall(a), StartRinging, InCallAddCall(b), InCallAddCall(c),
      StopRinging, Answer(a), StartRinging, InCallMarkActive(a.id),
      StopRinging, Reject(b), StartRinging, InCallMarkDisconnected(b.id),
      StopRinging, Answer(c), StopRinging, InCallMarkActive(c.id)]
    ensures manager.calls == map[a.id := a, c.id := c] && manager.unansweredIncomingCalls == []
    ensures a.state == Active && b.state == Disconnected && c.state == Active
  {
    manager := ThreeIncomingCalls(a, b, c);
    AnswerRejectAnswer(manager, a, b, c);
  }
}
