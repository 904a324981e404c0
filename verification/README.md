# Input-command handlers of Robust.Shared.Input

A model of the input-command dispatch layer of the Robust engine
(`Robust.Shared/Input/InputCmdHandler.cs`). An input command handler receives
a session and an input message. A full message carries a key state (Up, Down,
or some other wire value), grid and screen coordinates and a target entity.
The handler answers whether it handled the message, and it calls at most one
user callback on the way. There are four strategies:

- the delegate-backed handler built by `InputCmdHandler.FromDelegate`: Down runs
  the enabled delegate, Up the disabled one;
- `PointerInputCmdHandler`: a one-shot callback on Down whose answer is the
  verdict, with two constructors (a three-argument delegate, or a delegate
  taking the argument bundle);
- `PointerStateInputCmdHandler`: Up and Down each run their pointer delegate and
  are always handled;
- `NullInputCmdHandler`: handles everything and calls nothing.

The code is pure, and the model is too:

- `wrappers.dfy` has `Option`, which stands for a C# reference that may be null.
- `input.dfy` (module `Input`) has the data types, the four handler strategies
  (one datatype with four constructors), the factories and `HandleCmdMessage`.
  A call returns an `Outcome(handled, call)`, where `call` records which
  callback ran and with which arguments.
- `input_properties.dfy` (module `InputProperties`) has the lemmas about each
  strategy and the agreement of the two pointer constructors. It also models a
  caller sending a sequence of messages one at a time (`HandleEach`) and proves
  over any such sequence that:
  - no handler carries state from one call to the next;
  - the delegate-backed and pointer-state handlers run each delegate exactly
    once per matching transition, and the pointer handler runs its callback
    exactly once per Down message.
- `pointer_constructor_as_written.dfy` (module `PointerConstructorAsWritten`) has the first pointer constructor as
  written, with its null-delegate discrepancy (see Findings).

The session, the coordinates and the entity uid are opaque type parameters
`S`, `G`, `C` and `E`. Callbacks are Dafny function values.

`FromPointerDelegate` is the three-argument constructor with its null case
corrected: a null delegate gives a handler without a callback (see Findings).

## Model

| member | source | states |
|---|---|---|
| `Input.Enabled` | Robust.Shared/Input/InputCmdHandler.cs:42-45 | The Enabled hook calls something only on a delegate-backed handler with an enabled delegate, and then it is the enabled delegate with the given session. For every other handler it is the no-op default of lines 11-13. |
| `Input.Disabled` | Robust.Shared/Input/InputCmdHandler.cs:47-50 | The Disabled hook calls something only on a delegate-backed handler with a disabled delegate, and then it is the disabled delegate with the given session. For every other handler it is the no-op default of lines 15-17. |
| `Input.FromDelegate` | Robust.Shared/Input/InputCmdHandler.cs:27-35 | Builds a delegate-backed handler holding exactly the two given delegates. Either delegate may be null. |
| `Input.HandleState` | Robust.Shared/Input/InputCmdHandler.cs:52-69 | The delegate-backed handler handles exactly the full messages in state Up or Down. Down makes the Enabled hook's call and Up makes the Disabled hook's call. Any other message calls nothing. |
| `Input.PointerArgs` | Robust.Shared/Input/InputCmdHandler.cs:99-114 | The argument bundle carries the session given to the handler plus the message's coordinates, screen coordinates and uid. |
| `Input.FromPointerDelegate` | Robust.Shared/Input/InputCmdHandler.cs:81-83 | The three-argument constructor (corrected for null, see Findings) gives a pointer handler that has a callback exactly when a delegate was given. |
| `Input.HandlePointer` | Robust.Shared/Input/InputCmdHandler.cs:90-97 | The callback runs, once, exactly on a full Down message when there is a callback, and it gets the message's bundle. The verdict is true exactly when the callback ran and answered true. |
| `Input.HandlePointerState` | Robust.Shared/Input/InputCmdHandler.cs:129-146 | The pointer-state handler handles exactly the full Up and Down messages, whatever its delegates are. Down runs the enabled delegate and Up the disabled one, each (if present) with session, coordinates and uid. Any other message calls nothing. |
| `Input.HandleNull` | Robust.Shared/Input/InputCmdHandler.cs:156-159 | The null handler reports every message as handled and calls nothing. |
| `Input.HandleCmdMessage` | Robust.Shared/Input/InputCmdHandler.cs:19 | These rules hold for every strategy: (1) a message that is not full is refused with no call, except by the null handler; (2) a callback runs only for a full Up or Down message and receives the caller's session; (3) every strategy but the pointer handler handles exactly the full Up/Down messages, and the null handler handles everything; (4) the pointer handler handles only Down. |
| `InputProperties.FromDelegateHandles` | Robust.Shared/Input/InputCmdHandler.cs:27-69 | For a handler from FromDelegate: Down returns true and calls only the enabled delegate (nothing if it is null). Up returns true and calls only the disabled delegate (nothing if it is null). A non-full message or an unknown state returns false and calls nothing. |
| `InputProperties.PointerHandles` | Robust.Shared/Input/InputCmdHandler.cs:90-97 | For the pointer handler: Down with a callback calls it once with (session, coordinates, screen coordinates, uid) and returns exactly its answer. Down with no callback returns false. Up, an unknown state and a non-full message return false without calling it. |
| `InputProperties.PointerConstructorsAgree` | Robust.Shared/Input/InputCmdHandler.cs:81-88 | The corrected three-argument constructor (`FromPointerDelegate`) and the bundled one give the same outcome on every message, null delegates included, when the bundled delegate answers like the three-argument one on (Session, Coordinates, EntityUid). With a non-null delegate the constructor as written agrees too (`PointerConstructorAsWritten.AsWrittenAgreesWithCorrected`). |
| `InputProperties.FromPointerDelegateForwards` | Robust.Shared/Input/InputCmdHandler.cs:81-83 | The callback stored by the three-argument constructor answers, on every bundle, what the given delegate answers on the bundle's (Session, Coordinates, EntityUid). |
| `InputProperties.FlatPointerIgnoresScreenCoordinates` | Robust.Shared/Input/InputCmdHandler.cs:81-83 | A handler built from a three-argument delegate gives the same verdict for two messages that differ only in screen coordinates. |
| `InputProperties.PointerStateHandles` | Robust.Shared/Input/InputCmdHandler.cs:117-146 | For the pointer-state handler: Down returns true and calls only the enabled delegate with (session, coordinates, uid). Up does the same with the disabled delegate. Both return true even when the delegate is null. Anything else returns false and calls nothing. |
| `InputProperties.NullHandlesEverything` | Robust.Shared/Input/InputCmdHandler.cs:153-159 | The null handler returns true with no call for every session and every message. |
| `InputProperties.HandleEach` | Robust.Shared/Input/InputCmdHandler.cs:9-19 | When a caller sends a sequence of messages one at a time, each outcome equals the outcome of that call on its own: nothing is carried over from earlier calls. Handlers keep no state between calls. |
| `InputProperties.SameMessageSameOutcome` | Robust.Shared/Input/InputCmdHandler.cs:9-19 | A message sent twice gets the same outcome both times, whatever was sent before or between: the handler carries nothing over from earlier calls (callbacks answer by their arguments alone, see Left out). |
| `InputProperties.PointerOutcomeFollowsThisAnswer` | Robust.Shared/Input/InputCmdHandler.cs:95-96 | The pointer handler's outcome depends on its callback only through the callback's answer on this call's bundle: two callbacks that answer alike on it give the same outcome, whatever they answer on other calls. |
| `InputProperties.DelegateCallsCountTransitions` | Robust.Shared/Input/InputCmdHandler.cs:42-64 | Over any sequence of messages, a handler from FromDelegate calls the enabled delegate once per full Down message and the disabled delegate once per full Up message. A null delegate is never called. |
| `InputProperties.HandledCountOfStatelessVerdicts` | Robust.Shared/Input/InputCmdHandler.cs:129-145 | Over any sequence of messages, the delegate-backed and pointer-state handlers report handled exactly as often as there are full Up or Down messages, whatever their callbacks are. They share the verdict rule of lines 57-68. The null handler reports every message handled (line 158). |
| `InputProperties.PointerCallsCountDownMessages` | Robust.Shared/Input/InputCmdHandler.cs:92-96 | Over any sequence of messages, a pointer handler calls its callback once per full Down message, or never if it is null. It handles no more messages than it called the callback for. |
| `InputProperties.PointerStateCallsCountTransitions` | Robust.Shared/Input/InputCmdHandler.cs:134-142 | Over any sequence of messages, a pointer-state handler calls its enabled delegate once per full Down message and its disabled delegate once per full Up message. A null delegate is never called. |
| `InputProperties.CounterFollowsDownDownUp` | Robust.Shared/Input/InputCmdHandler.cs:57-64 | For a handler from FromDelegate with both delegates set, the messages Down, Down, Up are all handled. A counter raised by each enabled call and lowered by each disabled call (enabled calls minus disabled calls over the outcomes so far) goes 1, 2, 1. The delegates are recorded, not applied, so the counter is computed from the call records. |
| `PointerConstructorAsWritten.AdapterAsWritten` | Robust.Shared/Input/InputCmdHandler.cs:82-83 | The adapter lambda of the three-argument constructor throws NullReferenceException exactly when its delegate is null. Otherwise it returns the delegate's answer on (Session, Coordinates, EntityUid). |
| `PointerConstructorAsWritten.HandleFromPointerDelegateAsWritten` | Robust.Shared/Input/InputCmdHandler.cs:81-96 | For a handler built by the three-argument constructor as written, a call throws exactly on a full Down message with a null delegate. It returns true only on Down with a delegate. |
| `PointerConstructorAsWritten.NullThreeArgumentDelegateThrowsOnDown` | Robust.Shared/Input/InputCmdHandler.cs:81-96 | With a null delegate, a Down message throws through the three-argument constructor as written. The bundled constructor and the corrected one return false instead. |
| `PointerConstructorAsWritten.AsWrittenAgreesWithCorrected` | Robust.Shared/Input/InputCmdHandler.cs:81-96 | With a non-null delegate, the constructor as written and the corrected one give the same verdict on every message, and neither throws. |

## Findings

| source | as written | input that shows it | evidently intended | confidence | as-written member | corrected member |
|---|---|---|---|---|---|---|
| Robust.Shared/Input/InputCmdHandler.cs:81-83 | The three-argument constructor always stores a non-null lambda that invokes `callback` with no null check, so `_callback?.Invoke` (line 95) never short-circuits. | `new PointerInputCmdHandler((PointerInputCmdDelegate) null)`, then a full Down message: NullReferenceException | a null delegate behaves as with the bundled constructor: Down returns false and nothing is called | medium (C# delegate semantics are certain; whether null is ever passed is not known); not executed | `PointerConstructorAsWritten.NullThreeArgumentDelegateThrowsOnDown` | `Input.FromPointerDelegate` (proved in `InputProperties.PointerConstructorsAgree`) |

## Left out

- `FromDelegate`: the C# parameters default to null (lines 27-28), so either may be omitted there; in the model an omitted delegate is written `None`.

- The internals of `ICommonSession`, `GridCoordinates`, `ScreenCoordinates` and `EntityUid` are not part of this model. They are only passed through, so they are type parameters.
- The `InputCmdMessage` class hierarchy and the full `BoundKeyState` enum are not part of this model. The model keeps only "full message or not", and Up / Down / any other value.
- What a callback does is not modelled. A callback is a function value; a `void` delegate is `S -> ()`, since its only observable effect is being called. Exceptions thrown by a callback itself are not modelled.
- `SameMessageSameOutcome`: callback answers are modelled as depending only on their arguments, so the lemma says the handler adds no state; it does not say that a C# pointer callback with state of its own answers a repeated message alike. `PointerOutcomeFollowsThisAnswer` states the handler's part without that assumption.
- Privacy of the delegate-backed handler is not modelled: in C# it can only be built through `FromDelegate`, while here its datatype constructor is visible.
- Subclassing of the public handler classes is not modelled: the four strategies form a closed datatype.
- The `in` (by-reference) passing of `PointerInputCmdArgs` is not modelled. It has no behavioural meaning.
- The pointer-state handler's delegates return a bool, which the handler ignores; the model records the call and not the answer.
- The keybinding table that decides which handler gets a message is not part of this model. `HandleEach` stands for any caller that sends messages one at a time.
