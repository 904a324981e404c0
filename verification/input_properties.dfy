/**
 * Properties of the input-command handlers: what each way of building a
 * handler does with each kind of message, that the two pointer-handler
 * constructors agree, and that no handler carries state from one message to
 * the next.
 */
module InputProperties {
  import opened Wrappers
  import opened Input

  /** A handler from FromDelegate: Down runs only the enabled delegate, Up only the disabled one, both handled; the rest is refused. */
  lemma FromDelegateHandles<S, G, C, E>(enabled: Option<StateInputCmdDelegate<S>>, disabled: Option<StateInputCmdDelegate<S>>,
                                        session: S, message: InputCmdMessage<G, C, E>)
    ensures var r := HandleCmdMessage(FromDelegate<S, G, C, E>(enabled, disabled), session, message);
      && (IsDown(message) ==> r == Outcome(true, if enabled.Some? then Some(EnabledDelegateCall(session)) else None))
      && (message.Full? && message.state == Up ==>
            r == Outcome(true, if disabled.Some? then Some(DisabledDelegateCall(session)) else None))
      && (!IsUpOrDown(message) ==> r == Outcome(false, None))
  {
  }

  /** The pointer handler: Down runs the callback once on the message's bundle and answers with its result; nothing else is handled. */
  lemma PointerHandles<S, G, C, E>(callback: Option<PointerInputCmdDelegate2<S, G, C, E>>, session: S,
                                   message: InputCmdMessage<G, C, E>)
    ensures var r := HandleCmdMessage(PointerInputCmdHandler(callback), session, message);
      && (IsDown(message) && callback.Some? ==>
            var args := PointerInputCmdArgs(session, message.coordinates, message.screenCoordinates, message.uid);
            r == Outcome(callback.value(args), Some(CallbackCall(args))))
      && (IsDown(message) && callback.None? ==> r == Outcome(false, None))
      && (!IsDown(message) ==> r == Outcome(false, None))
  {
  }

  /**
   * The two pointer-handler constructors agree: a three-argument delegate
   * and a bundled delegate that calls it with the bundle's session,
   * coordinates and entity give the same outcome on every message, null
   * delegates included.
   */
  lemma PointerConstructorsAgree<S, G, C, E>(callback: Option<PointerInputCmdDelegate<S, G, E>>,
                                             bundled: Option<PointerInputCmdDelegate2<S, G, C, E>>,
                                             session: S, message: InputCmdMessage<G, C, E>)
    requires callback.Some? <==> bundled.Some?
    requires callback.Some? ==>
      forall args: PointerInputCmdArgs<S, G, C, E> ::
        bundled.value(args) == callback.value(args.session, args.coordinates, args.entityUid)
    ensures HandleCmdMessage(FromPointerDelegate(callback), session, message)
         == HandleCmdMessage(PointerInputCmdHandler(bundled), session, message)
  {
  }

  /** The callback stored by the three-argument constructor forwards session, coordinates and entity of the bundle to the given delegate. */
  lemma FromPointerDelegateForwards<S, G, C, E>(callback: PointerInputCmdDelegate<S, G, E>, args: PointerInputCmdArgs<S, G, C, E>)
    ensures FromPointerDelegate<S, G, C, E>(Some(callback)).callback.Some?
    ensures FromPointerDelegate<S, G, C, E>(Some(callback)).callback.value(args)
         == callback(args.session, args.coordinates, args.entityUid)
  {
  }

  /** A handler built from a three-argument delegate gives the same outcome whatever the screen coordinates, apart from the bundle it records. */
  lemma FlatPointerIgnoresScreenCoordinates<S, G, C, E>(callback: PointerInputCmdDelegate<S, G, E>, session: S,
                                                        state: BoundKeyState, coordinates: G, uid: E, screen1: C, screen2: C)
    ensures HandleCmdMessage(FromPointerDelegate(Some(callback)), session, Full(state, coordinates, screen1, uid)).handled
         == HandleCmdMessage(FromPointerDelegate(Some(callback)), session, Full(state, coordinates, screen2, uid)).handled
  {
  }

  /** The pointer-state handler: Up and Down run the matching delegate with session, coordinates and entity and are handled whatever the delegates are. */
  lemma PointerStateHandles<S, G, C, E>(enabled: Option<PointerInputCmdDelegate<S, G, E>>,
                                        disabled: Option<PointerInputCmdDelegate<S, G, E>>,
                                        session: S, message: InputCmdMessage<G, C, E>)
    ensures var r := HandleCmdMessage(PointerStateInputCmdHandler(enabled, disabled), session, message);
      && (IsDown(message) ==>
            r == Outcome(true, if enabled.Some? then Some(PointerEnabledCall(session, message.coordinates, message.uid)) else None))
      && (message.Full? && message.state == Up ==>
            r == Outcome(true, if disabled.Some? then Some(PointerDisabledCall(session, message.coordinates, message.uid)) else None))
      && (!IsUpOrDown(message) ==> r == Outcome(false, None))
  {
  }

  /** The null handler consumes every message from every session and calls nothing. */
  lemma NullHandlesEverything<S, G, C, E>(session: S, message: InputCmdMessage<G, C, E>)
    ensures HandleCmdMessage(NullInputCmdHandler, session, message) == Outcome(true, None)
  {
  }

  /**
   * A caller handing one handler a sequence of (session, message) pairs, one
   * call at a time. Each outcome depends on its own pair only: the handler
   * keeps nothing from one call to the next.
   */
  function HandleEach<S, G, C, E>(h: InputCmdHandler<S, G, C, E>, calls: seq<(S, InputCmdMessage<G, C, E>)>): (rs: seq<Outcome<S, G, C, E>>)
    ensures |rs| == |calls|
    ensures forall i :: 0 <= i < |calls| ==> rs[i] == HandleCmdMessage(h, calls[i].0, calls[i].1)
  {
    if calls == [] then []
    else [HandleCmdMessage(h, calls[0].0, calls[0].1)] + HandleEach(h, calls[1..])
  }

  /**
   * The pointer handler adds nothing of its own to its callback's answer:
   * two callbacks that give the same answer on this call's bundle give the
   * same outcome, whatever they answer on other calls.
   */
  lemma PointerOutcomeFollowsThisAnswer<S, G, C, E>(f: PointerInputCmdDelegate2<S, G, C, E>, g: PointerInputCmdDelegate2<S, G, C, E>,
                                                    session: S, message: InputCmdMessage<G, C, E>)
    requires IsDown(message) ==> f(PointerArgs(session, message)) == g(PointerArgs(session, message))
    ensures HandleCmdMessage(PointerInputCmdHandler(Some(f)), session, message)
         == HandleCmdMessage(PointerInputCmdHandler(Some(g)), session, message)
  {
  }

  /**
   * The same message sent twice, with anything in between, gets the same
   * outcome both times. Callbacks answer by their arguments alone here, so
   * this says the handler carries nothing over from earlier calls.
   */
  lemma SameMessageSameOutcome<S, G, C, E>(h: InputCmdHandler<S, G, C, E>, session: S, message: InputCmdMessage<G, C, E>,
                                           before: seq<(S, InputCmdMessage<G, C, E>)>,
                                           between: seq<(S, InputCmdMessage<G, C, E>)>)
    ensures var rs := HandleEach(h, before + [(session, message)] + between + [(session, message)]);
      rs[|before|] == rs[|before| + |between| + 1]
  {
  }

  /** Number of outcomes that ran the enabled delegate. */
  function EnabledCalls<S, G, C, E>(rs: seq<Outcome<S, G, C, E>>): nat {
    if rs == [] then 0
    else (if rs[0].call.Some? && rs[0].call.value.EnabledDelegateCall? then 1 else 0) + EnabledCalls(rs[1..])
  }

  /** Number of outcomes that ran the disabled delegate. */
  function DisabledCalls<S, G, C, E>(rs: seq<Outcome<S, G, C, E>>): nat {
    if rs == [] then 0
    else (if rs[0].call.Some? && rs[0].call.value.DisabledDelegateCall? then 1 else 0) + DisabledCalls(rs[1..])
  }

  /** Number of outcomes that ran the pointer handler's callback. */
  function CallbackCalls<S, G, C, E>(rs: seq<Outcome<S, G, C, E>>): nat {
    if rs == [] then 0
    else (if rs[0].call.Some? && rs[0].call.value.CallbackCall? then 1 else 0) + CallbackCalls(rs[1..])
  }

  /** Number of outcomes that ran the pointer-state handler's enabled delegate. */
  function PointerEnabledCalls<S, G, C, E>(rs: seq<Outcome<S, G, C, E>>): nat {
    if rs == [] then 0
    else (if rs[0].call.Some? && rs[0].call.value.PointerEnabledCall? then 1 else 0) + PointerEnabledCalls(rs[1..])
  }

  /** Number of outcomes that ran the pointer-state handler's disabled delegate. */
  function PointerDisabledCalls<S, G, C, E>(rs: seq<Outcome<S, G, C, E>>): nat {
    if rs == [] then 0
    else (if rs[0].call.Some? && rs[0].call.value.PointerDisabledCall? then 1 else 0) + PointerDisabledCalls(rs[1..])
  }

  /** Number of outcomes reported as handled. */
  function HandledCount<S, G, C, E>(rs: seq<Outcome<S, G, C, E>>): nat {
    if rs == [] then 0 else (if rs[0].handled then 1 else 0) + HandledCount(rs[1..])
  }

  /** Number of full messages in the given key state. */
  function StateCount<S, G, C, E>(calls: seq<(S, InputCmdMessage<G, C, E>)>, state: BoundKeyState): nat {
    if calls == [] then 0
    else (if calls[0].1.Full? && calls[0].1.state == state then 1 else 0) + StateCount(calls[1..], state)
  }

  /**
   * Over any sequence of messages, a delegate-backed handler runs its
   * enabled delegate once per Down message and its disabled delegate once
   * per Up message, and never when the delegate is absent.
   */
  lemma {:induction false} DelegateCallsCountTransitions<S, G, C, E>(enabled: Option<StateInputCmdDelegate<S>>,
                                                                     disabled: Option<StateInputCmdDelegate<S>>,
                                                                     calls: seq<(S, InputCmdMessage<G, C, E>)>)
    ensures var rs := HandleEach(FromDelegate<S, G, C, E>(enabled, disabled), calls);
      && EnabledCalls(rs) == (if enabled.Some? then StateCount(calls, Down) else 0)
      && DisabledCalls(rs) == (if disabled.Some? then StateCount(calls, Up) else 0)
  {
    if calls != [] {
      DelegateCallsCountTransitions<S, G, C, E>(enabled, disabled, calls[1..]);
    }
  }

  /**
   * Over any sequence of messages, the delegate-backed, pointer-state and
   * null handlers report as handled exactly the Up and Down messages (the
   * null handler: every message), whatever their callbacks are.
   */
  lemma {:induction false} HandledCountOfStatelessVerdicts<S, G, C, E>(h: InputCmdHandler<S, G, C, E>,
                                                                       calls: seq<(S, InputCmdMessage<G, C, E>)>)
    requires !h.PointerInputCmdHandler?
    ensures HandledCount(HandleEach(h, calls))
         == if h.NullInputCmdHandler? then |calls| else StateCount(calls, Down) + StateCount(calls, Up)
  {
    if calls != [] {
      HandledCountOfStatelessVerdicts(h, calls[1..]);
    }
  }

  /**
   * Over any sequence of messages, a pointer handler with a callback runs it
   * once per Down message and never otherwise, and handles at most those
   * messages; without a callback it handles nothing.
   */
  lemma {:induction false} PointerCallsCountDownMessages<S, G, C, E>(callback: Option<PointerInputCmdDelegate2<S, G, C, E>>,
                                                                     calls: seq<(S, InputCmdMessage<G, C, E>)>)
    ensures var rs := HandleEach(PointerInputCmdHandler(callback), calls);
      && CallbackCalls(rs) == (if callback.Some? then StateCount(calls, Down) else 0)
      && HandledCount(rs) <= CallbackCalls(rs)
  {
    if calls != [] {
      PointerCallsCountDownMessages(callback, calls[1..]);
    }
  }

  /**
   * Over any sequence of messages, a pointer-state handler runs its enabled
   * delegate once per Down message and its disabled delegate once per Up
   * message, and never when the delegate is absent.
   */
  lemma {:induction false} PointerStateCallsCountTransitions<S, G, C, E>(enabled: Option<PointerInputCmdDelegate<S, G, E>>,
                                                                         disabled: Option<PointerInputCmdDelegate<S, G, E>>,
                                                                         calls: seq<(S, InputCmdMessage<G, C, E>)>)
    ensures var rs := HandleEach(PointerStateInputCmdHandler(enabled, disabled), calls);
      && PointerEnabledCalls(rs) == (if enabled.Some? then StateCount(calls, Down) else 0)
      && PointerDisabledCalls(rs) == (if disabled.Some? then StateCount(calls, Up) else 0)
  {
    if calls != [] {
      PointerStateCallsCountTransitions(enabled, disabled, calls[1..]);
    }
  }

  /**
   * A counter raised by the enabled delegate and lowered by the disabled
   * one goes 0, 1, 2, 1 over Down, Down, Up, and all three messages are
   * handled. Delegates are recorded rather than applied, so the counter
   * after k messages is the number of enabled calls minus the number of
   * disabled calls among the first k outcomes; `raise` and `lower` are the
   * two delegates the handler is built with.
   */
  lemma CounterFollowsDownDownUp<S, G, C, E>(raise: StateInputCmdDelegate<S>, lower: StateInputCmdDelegate<S>,
                                             session: S, coordinates: G, screen: C, uid: E)
    ensures var calls := [(session, Full(Down, coordinates, screen, uid)),
                          (session, Full(Down, coordinates, screen, uid)),
                          (session, Full(Up, coordinates, screen, uid))];
      var rs := HandleEach(FromDelegate<S, G, C, E>(Some(raise), Some(lower)), calls);
      && HandledCount(rs) == 3
      && EnabledCalls(rs[..1]) - DisabledCalls(rs[..1]) == 1
      && EnabledCalls(rs[..2]) - DisabledCalls(rs[..2]) == 2
      && EnabledCalls(rs[..3]) - DisabledCalls(rs[..3]) == 1
  {
    var calls := [(session, Full(Down, coordinates, screen, uid)),
                  (session, Full(Down, coordinates, screen, uid)),
                  (session, Full(Up, coordinates, screen, uid))];
    var h := FromDelegate<S, G, C, E>(Some(raise), Some(lower));
    var rs := HandleEach(h, calls);
    var down := Outcome(true, Some(EnabledDelegateCall(session)));
    var up := Outcome(true, Some(DisabledDelegateCall(session)));
    assert rs == [down, down, up];
    assert rs[..1] == [down] && rs[..2] == [down, down] && rs[..3] == rs;
    assert [down, up][1..] == [up] && [up][1..] == [];
    assert HandledCount([up]) == 1 && EnabledCalls([up]) == 0 && DisabledCalls([up]) == 1;
    assert HandledCount([down, up]) == 2 && EnabledCalls([down, up]) == 1 && DisabledCalls([down, up]) == 1;
    assert rs[1..] == [down, up];
  }
}
