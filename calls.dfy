/** The call entity shared by the Switchboard and the CallsManager, and the opaque
    values that travel with it (descriptors, selectors, extras, contact information). */
module Calls {

  datatype Option<+T> = None | Some(value: T)

  /** The states a call can be in; transitions are not restricted (the radio is authoritative). */
  datatype CallState = New | Ringing | Dialing | Active | Disconnected

  type CallId = string

  /** The address being dialled (a phone number or SIP URI); absent for a not-yet-retrieved incoming call. */
  type Handle = string

  /** Opaque contact metadata attached to a call. */
  datatype ContactInfo = ContactInfo(displayName: string)

  /** Opaque identifier of a call-service implementation. */
  datatype CallServiceDescriptor = CallServiceDescriptor(componentName: string)

  /** The bound, usable form of a call service, as handed out by the call-service repository. */
  datatype CallServiceWrapper = CallServiceWrapper(descriptor: CallServiceDescriptor)

  /** Opaque handle of a remote call-service selector. */
  datatype Selector = Selector(componentName: string)

  /** Opaque extension data passed along with an incoming-call intent. */
  datatype Extras = Extras(entries: seq<(string, string)>)

  /** The call-service repository's lookup of the wrapper for a descriptor, taken to succeed
      and to wrap that very descriptor. */
  function CallServiceFor(descriptor: CallServiceDescriptor): (w: CallServiceWrapper)
    ensures w.descriptor == descriptor
  {
    CallServiceWrapper(descriptor)
  }

  /** A call, updated in place as its state and call-service binding change. */
  class Call {
    const id: CallId
    var handle: Option<Handle>
    var contactInfo: Option<ContactInfo>
    var state: CallState
    var callService: Option<CallServiceWrapper>

    /** A new call: the id is the fresh unique identifier generated for it. */
    constructor (id: CallId, handle: Option<Handle>, contactInfo: Option<ContactInfo>)
      ensures this.id == id && this.handle == handle && this.contactInfo == contactInfo
      ensures state == New && callService == None
    {
      this.id := id;
      this.handle := handle;
      this.contactInfo := contactInfo;
      state := New;
      callService := None;
    }
  }
}
