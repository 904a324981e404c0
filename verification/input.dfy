/**
 * The input-command handlers of Robust.Shared.Input.
 *
 * A handler turns one input message, tagged with a key state, into a
 * "handled" verdict and at most one call of a user callback. The session,
 * the grid and screen coordinates and the entity uid are opaque to the
 * handlers and appear here as the type parameters S, G, C and E.
 * Callbacks are foreign code: a callback is a Dafny function value, a null
 * callback is None, and the one call a handler makes is returned as a
 * `Call` record naming the callback and its arguments.
 */
module Input {
  import opened Wrappers

  /** Up and Down are the two states a handler acts on; Unknown stands for every other value of the wire enum. */
  datatype BoundKeyState = Up | Down | Unknown

  /** A FullInputCmdMessage carries a key state, coordinates and a target entity; every other kind of message is Other. */
  datatype InputCmdMessage<G, C, E> =
    | Full(state: BoundKeyState, coordinates: G, screenCoordinates: C, uid: E)
    | Other

  /** True of the messages the delegate and pointer-state handlers act on: a full message in state Up or Down. */
  predicate IsUpOrDown<G, C, E>(message: InputCmdMessage<G, C, E>) {
    message.Full? && message.state != Unknown
  }

  /** True of the one message kind a pointer handler acts on: a full message in state Down. */
  predicate IsDown<G, C, E>(message: InputCmdMessage<G, C, E>) {
    message.Full? && message.state == Down
  }

  /** The argument bundle a pointer handler passes to its callback. */
  datatype PointerInputCmdArgs<S, G, C, E> =
    PointerInputCmdArgs(session: S, coordinates: G, screenCoordinates: C, entityUid: E)

  /** A delegate taking only the session, returning nothing. */
  type StateInputCmdDelegate<!S> = S -> ()

  /** A pointer delegate taking session, grid coordinates and entity, answering whether it handled the input. */
  type PointerInputCmdDelegate<!S, !G, !E> = (S, G, E) -> bool

  /** A pointer delegate taking the whole argument bundle. */
  type PointerInputCmdDelegate2<!S, !G, !C, !E> = PointerInputCmdArgs<S, G, C, E> -> bool

  /** Which callback a handler called, and with which arguments. */
  datatype Call<S, G, C, E> =
    | EnabledDelegateCall(session: S)
    | DisabledDelegateCall(session: S)
    | CallbackCall(args: PointerInputCmdArgs<S, G, C, E>)
    | PointerEnabledCall(session: S, coordinates: G, uid: E)
    | PointerDisabledCall(session: S, coordinates: G, uid: E)
  {
    /** The session the callback received. */
    function Session(): S {
      if CallbackCall? then args.session else session
    }
  }

  /** What handling one message produces: the verdict and the callback call, if any. */
  datatype Outcome<S, G, C, E> = Outcome(handled: bool, call: Option<Call<S, G, C, E>>)

  /** The four handler strategies, each holding only the callbacks it was built with. */
  datatype InputCmdHandler<!S, !G, !C, !E> =
    | StateInputCmdHandler(enabledDelegate: Option<StateInputCmdDelegate<S>>,
                           disabledDelegate: Option<StateInputCmdDelegate<S>>)
    | PointerInputCmdHandler(callback: Option<PointerInputCmdDelegate2<S, G, C, E>>)
    | PointerStateInputCmdHandler(enabled: Option<PointerInputCmdDelegate<S, G, E>>,
                                  disabled: Option<PointerInputCmdDelegate<S, G, E>>)
    | NullInputCmdHandler

  /**
   * The Enabled hook: a no-op by default; the delegate-backed handler
   * overrides it to invoke its enabled delegate when there is one.
   */
  function Enabled<S, G, C, E>(h: InputCmdHandler<S, G, C, E>, session: S): (c: Option<Call<S, G, C, E>>)
    ensures c.Some? <==> h.StateInputCmdHandler? && h.enabledDelegate.Some?
    ensures c.Some? ==> c.value == EnabledDelegateCall(session)
  {
    if h.StateInputCmdHandler? && h.enabledDelegate.Some? then Some(EnabledDelegateCall(session)) else None
  }

  /** The Disabled hook, the counterpart of Enabled for the disabled delegate. */
  function Disabled<S, G, C, E>(h: InputCmdHandler<S, G, C, E>, session: S): (c: Option<Call<S, G, C, E>>)
    ensures c.Some? <==> h.StateInputCmdHandler? && h.disabledDelegate.Some?
    ensures c.Some? ==> c.value == DisabledDelegateCall(session)
  {
    if h.StateInputCmdHandler? && h.disabledDelegate.Some? then Some(DisabledDelegateCall(session)) else None
  }

  /** Builds the delegate-backed handler; either delegate may be absent. */
  function FromDelegate<S, G, C, E>(enabled: Option<StateInputCmdDelegate<S>>,
                                    disabled: Option<StateInputCmdDelegate<S>>): (h: InputCmdHandler<S, G, C, E>)
    ensures h.StateInputCmdHandler? && h.enabledDelegate == enabled && h.disabledDelegate == disabled
  {
    StateInputCmdHandler(enabled, disabled)
  }

  /** Message handling of the delegate-backed handler: Up runs Disabled, Down runs Enabled, anything else is ignored. */
  function HandleState<S, G, C, E>(h: InputCmdHandler<S, G, C, E>, session: S,
                                   message: InputCmdMessage<G, C, E>): (r: Outcome<S, G, C, E>)
    requires h.StateInputCmdHandler?
    ensures r.handled <==> IsUpOrDown(message)
    ensures r.call.Some? ==> IsUpOrDown(message)
    ensures message.Full? && message.state == Down ==> r.call == Enabled(h, session)
    ensures message.Full? && message.state == Up ==> r.call == Disabled(h, session)
  {
    if !message.Full? then Outcome(false, None)
    else match message.state
      case Up => Outcome(true, Disabled(h, session))
      case Down => Outcome(true, Enabled(h, session))
      // client sanitization: an unknown key state is ignored, never an error
      case Unknown => Outcome(false, None)
  }

  /** The bundle a pointer handler builds from the session it is given and the fields of a full message. */
  function PointerArgs<S, G, C, E>(session: S, message: InputCmdMessage<G, C, E>): (args: PointerInputCmdArgs<S, G, C, E>)
    requires message.Full?
    ensures args.session == session && args.coordinates == message.coordinates
    ensures args.screenCoordinates == message.screenCoordinates && args.entityUid == message.uid
  {
    PointerInputCmdArgs(session, message.coordinates, message.screenCoordinates, message.uid)
  }

  /**
   * The first PointerInputCmdHandler constructor: it stores an adapter that
   * forwards the bundle's session, coordinates and entity to the
   * three-argument delegate and drops the screen coordinates. Corrected for
   * null: a null delegate gives a handler without callback, as the bundled
   * constructor does with null; as written, a null delegate throws on Down
   * (see module PointerConstructorAsWritten).
   */
  function FromPointerDelegate<S, G, C, E>(callback: Option<PointerInputCmdDelegate<S, G, E>>): (h: InputCmdHandler<S, G, C, E>)
    ensures h.PointerInputCmdHandler?
    ensures h.callback.Some? <==> callback.Some?
  {
    match callback
    case None => PointerInputCmdHandler(None)
    case Some(f) =>
      PointerInputCmdHandler(Some((args: PointerInputCmdArgs<S, G, C, E>) => f(args.session, args.coordinates, args.entityUid)))
  }

  /** Message handling of the pointer handler: only Down calls the callback, and its answer is the verdict. */
  function HandlePointer<S, G, C, E>(h: InputCmdHandler<S, G, C, E>, session: S,
                                     message: InputCmdMessage<G, C, E>): (r: Outcome<S, G, C, E>)
    requires h.PointerInputCmdHandler?
    ensures r.call.Some? <==> IsDown(message) && h.callback.Some?
    ensures r.call.Some? ==> r.call.value == CallbackCall(PointerArgs(session, message))
    ensures r.handled <==> IsDown(message) && h.callback.Some? && h.callback.value(PointerArgs(session, message))
  {
    if !message.Full? || message.state != Down then Outcome(false, None)
    else
      var args := PointerArgs(session, message);
      match h.callback
      case None => Outcome(false, None)
      case Some(f) => Outcome(f(args), Some(CallbackCall(args)))
  }

  /** Message handling of the pointer-state handler: Up and Down each run their delegate and are always handled. */
  function HandlePointerState<S, G, C, E>(h: InputCmdHandler<S, G, C, E>, session: S,
                                          message: InputCmdMessage<G, C, E>): (r: Outcome<S, G, C, E>)
    requires h.PointerStateInputCmdHandler?
    ensures r.handled <==> IsUpOrDown(message)
    ensures r.call.Some? <==>
      message.Full? && ((message.state == Down && h.enabled.Some?) || (message.state == Up && h.disabled.Some?))
    ensures r.call.Some? && message.state == Down ==>
      r.call.value == PointerEnabledCall(session, message.coordinates, message.uid)
    ensures r.call.Some? && message.state == Up ==>
      r.call.value == PointerDisabledCall(session, message.coordinates, message.uid)
  {
    if !message.Full? then Outcome(false, None)
    else match message.state
      case Up =>
        Outcome(true, if h.disabled.Some? then Some(PointerDisabledCall(session, message.coordinates, message.uid)) else None)
      case Down =>
        Outcome(true, if h.enabled.Some? then Some(PointerEnabledCall(session, message.coordinates, message.uid)) else None)
      // client sanitization: an unknown key state is ignored, never an error
      case Unknown => Outcome(false, None)
  }

  /** Message handling of the null handler: every message is consumed and nothing is called. */
  function HandleNull<S, G, C, E>(session: S, message: InputCmdMessage<G, C, E>): (r: Outcome<S, G, C, E>)
    ensures r.handled && r.call.None?
  {
    Outcome(true, None)
  }

  /**
   * HandleCmdMessage, dispatched on the handler's strategy. Across all
   * strategies: a message that is not full is refused by all but the null
   * handler, a callback runs only for a recognised Up or Down message and
   * receives the caller's session, and only the pointer handler's verdict
   * depends on a callback.
   */
  function HandleCmdMessage<S, G, C, E>(h: InputCmdHandler<S, G, C, E>, session: S,
                                        message: InputCmdMessage<G, C, E>): (r: Outcome<S, G, C, E>)
    ensures h.NullInputCmdHandler? ==> r == Outcome(true, None)
    ensures !h.NullInputCmdHandler? && !message.Full? ==> r == Outcome(false, None)
    ensures r.call.Some? ==> IsUpOrDown(message) && r.call.value.Session() == session
    ensures !h.PointerInputCmdHandler? ==> (r.handled <==> h.NullInputCmdHandler? || IsUpOrDown(message))
    ensures h.PointerInputCmdHandler? && r.handled ==> IsDown(message)
  {
    match h
    case StateInputCmdHandler(_, _) => HandleState(h, session, message)
    case PointerInputCmdHandler(_) => HandlePointer(h, session, message)
    case PointerStateInputCmdHandler(_, _) => HandlePointerState(h, session, message)
    case NullInputCmdHandler => HandleNull(session, message)
  }
}
