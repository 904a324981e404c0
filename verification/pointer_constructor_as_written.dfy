/**
 * The first PointerInputCmdHandler constructor as written: it always wraps
 * the three-argument delegate in a new, non-null adapter, and the adapter
 * invokes the delegate without a null check. A null three-argument delegate
 * therefore passes the handler's own null check and fails only when a Down
 * message reaches the adapter, whereas a null bundled delegate makes the
 * same message return false. Input.FromPointerDelegate is the corrected
 * constructor the rest of the model uses.
 */
module PointerConstructorAsWritten {
  import opened Wrappers
  import opened Input

  /** How a call of HandleCmdMessage ends: with a verdict, or with a NullReferenceException. */
  datatype Completion = Returned(handled: bool) | NullReferenceThrown

  /** The adapter lambda of the first constructor, invoking a delegate that may be null. */
  function AdapterAsWritten<S, G, C, E>(callback: Option<PointerInputCmdDelegate<S, G, E>>,
                                        args: PointerInputCmdArgs<S, G, C, E>): (c: Completion)
    ensures c.NullReferenceThrown? <==> callback.None?
    ensures callback.Some? ==> c == Returned(callback.value(args.session, args.coordinates, args.entityUid))
  {
    match callback
    case None => NullReferenceThrown
    case Some(f) => Returned(f(args.session, args.coordinates, args.entityUid))
  }

  /**
   * HandleCmdMessage of a handler built by the first constructor as
   * written: the stored callback is the adapter, which is never null, so
   * every Down message reaches it.
   */
  function HandleFromPointerDelegateAsWritten<S, G, C, E>(callback: Option<PointerInputCmdDelegate<S, G, E>>, session: S,
                                                          message: InputCmdMessage<G, C, E>): (c: Completion)
    ensures c.NullReferenceThrown? <==> IsDown(message) && callback.None?
    ensures c == Returned(true) ==> IsDown(message) && callback.Some?
  {
    if !message.Full? || message.state != Down then Returned(false)
    else AdapterAsWritten(callback, PointerArgs(session, message))
  }

  /**
   * The discrepancy: with a null three-argument delegate a Down message
   * throws, while the bundled constructor with null, and the corrected
   * constructor, return false without calling anything.
   */
  lemma NullThreeArgumentDelegateThrowsOnDown<S, G, C, E>(session: S, coordinates: G, screen: C, uid: E)
    ensures var down := Full(Down, coordinates, screen, uid);
      && HandleFromPointerDelegateAsWritten<S, G, C, E>(None, session, down) == NullReferenceThrown
      && HandleCmdMessage(PointerInputCmdHandler(None), session, down) == Outcome(false, None)
      && HandleCmdMessage(FromPointerDelegate<S, G, C, E>(None), session, down) == Outcome(false, None)
  {
  }

  /** With a non-null delegate the constructor as written and the corrected one agree on every message. */
  lemma AsWrittenAgreesWithCorrected<S, G, C, E>(callback: PointerInputCmdDelegate<S, G, E>, session: S,
                                                 message: InputCmdMessage<G, C, E>)
    ensures HandleFromPointerDelegateAsWritten(Some(callback), session, message)
         == Returned(HandleCmdMessage(FromPointerDelegate(Some(callback)), session, message).handled)
  {
  }
}
