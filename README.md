# Calculator controller of `App`

This project models the calculator controller inside the React component `App`
(`frontend/src/App.tsx`) and proves properties of it. The controller is a small
state machine over four component fields:

- `display`, the text shown;
- `firstOperand`, a number or null;
- `operation`, a string or null;
- `loading`, the spinner flag.

Four click handlers drive it: `handleNumberClick`, `handleOperationClick`,
`handleEqualsClick` and `handleClear`. Each keypad button is routed to one of
them by its `onClick`. All arithmetic happens in a remote call,
`backend.calculate`. The model treats that call as an outside exchange:

- the handler returns the `Request` it sends (operation, first operand, parsed display);
- the answer comes back later as a `Reply`: a number (`Value`), `NullResult`, or `Threw`.

`handleEqualsClick` is therefore split into two steps:

- the dispatch: raise `loading` and send the request;
- the completion: apply the reply.

The split matters because the chained-operator branch of `handleOperationClick`
does not await the call. It writes the new operator at once, and a later
successful answer clears it again.

Files:

- `calculator.dfy` (module `Calculator`): the state, the keypad, and each handler as a pure transition function.
- `session.dfy` (module `Session`): event sequences (clicks, Clear, backend answers), replayed with a count of unanswered calls.
- `properties.dfy` (module `Properties`): the lemmas.
- `app.dfy` (module `AppComponent`): class `App`. It has the four fields, and each handler is a method that updates them in place in the source's order of setter calls. Each method is specified by the matching transition function.

`parseFloat` and `Number.prototype.toString` are the two fields of a
`NumberText` value, so the model never interprets them. Numbers are `real`.

### Behaviour worth noting

- After a `null` answer or a thrown error, the code shows `"Error"`. It leaves `firstOperand` and `operation` as they were (`CompleteWithError`, `NullAnswerKeepsPending`). It does not clear them.
- An operator clicked while a first operand is held sends the pending calculation. A successful answer then clears both pending fields, so the new operator is discarded and the result stays on the display (`ChainedOperatorDiscarded`). The operator is not staged with the result as the new first operand.

## Model

| member | source | states |
|---|---|---|
| Calculator.HandlerFor | frontend/src/App.tsx:86-89 | "=" goes to the equals handler; exactly the four operator keys go to the operation handler; everything else goes to the number handler |
| AppComponent.App.constructor | frontend/src/App.tsx:21-24 | the fields start as display "0", no first operand, no operation, spinner off |
| AppComponent.App.HandleNumberClick | frontend/src/App.tsx:26-28 | the fields afterwards are the digit transition of the fields before |
| AppComponent.App.HandleOperationClick | frontend/src/App.tsx:30-39 | the fields afterwards, and the backend request sent (if any), are the operator transition of the fields before |
| AppComponent.App.HandleEqualsClick | frontend/src/App.tsx:41-45 | the fields afterwards, and the request sent, are the equals dispatch of the fields before |
| AppComponent.App.CompleteEquals | frontend/src/App.tsx:44-58 | the fields afterwards are the completion of the fields before with the backend's reply |
| AppComponent.App.HandleClear | frontend/src/App.tsx:62-66 | the fields afterwards are the Clear transition of the fields before |
| AppComponent.App.Click | frontend/src/App.tsx:86-89 | a button click has exactly the effect of the handler the button is routed to |
| Properties.NumberClickEffect | frontend/src/App.tsx:26-28 | a digit replaces a display of exactly "0" and is appended otherwise; the first operand, the operation and the spinner do not change |
| Properties.TypingAppends | frontend/src/App.tsx:26-28 | typing any tokens onto a non-empty display other than "0" appends them all, in order, and changes nothing else |
| Properties.TypingFromZero | frontend/src/App.tsx:26-28 | from "0", tokens whose first one is neither "0" nor empty leave exactly their concatenation on the display |
| Properties.LeadingZeroAbsorbed | frontend/src/App.tsx:27 | a "0" typed onto "0" has no effect on what later typing produces |
| Properties.DigitClicksType | frontend/src/App.tsx:86-89 | clicking buttons routed to the number handler sends no backend call and only types their tokens |
| Properties.RepeatedPointAccepted | frontend/src/App.tsx:26-28 | a second decimal point is not rejected: clicking 1 . 2 . 3 from the start shows "1.2.3" |
| Properties.OperatorStages | frontend/src/App.tsx:31-34 | with no first operand, an operator makes the parsed display the first operand, stages the operator, resets the display to "0", leaves the spinner and sends nothing |
| Properties.OperatorChains | frontend/src/App.tsx:35-38 | with a first operand, an operator sends exactly what "=" would send and stages the new operator at once |
| Properties.ChainedOperatorDiscarded | frontend/src/App.tsx:35-49 | after a chained operator click, a successful answer shows the result and clears the operator that click staged, with nothing left pending |
| Properties.EqualsGuard | frontend/src/App.tsx:41-45 | "=" sends a call if and only if a first operand and a non-empty operation are held; otherwise the state is unchanged; when it sends, only the spinner is raised |
| Properties.EqualsGuardWhenValid | frontend/src/App.tsx:42 | in a reachable state the guard of "=" holds exactly when a first operand is held |
| Properties.CompleteWithValue | frontend/src/App.tsx:46-49 | a number answer is shown as text, the first operand and operation become null, and the spinner goes off |
| Properties.CompleteWithError | frontend/src/App.tsx:50-57 | a null answer or a thrown error shows "Error", lowers the spinner and keeps the first operand and operation |
| Properties.LoadingAroundCall | frontend/src/App.tsx:36-58 | the spinner is on right after a call is sent, whether by "=" or by a chained operator click, and off after every kind of answer |
| Properties.ClearResets | frontend/src/App.tsx:62-66 | Clear gives display "0" and no pending operand or operation, keeps the spinner, and is idempotent |
| Properties.PressKeepsValid | frontend/src/App.tsx:68-89 | every keypad click keeps a non-empty display, a first operand exactly when an operation is held, and only operator keys as the operation |
| Properties.NextKeepsValid | frontend/src/App.tsx:21-66 | clicks, Clear and backend answers each preserve that invariant, given that toString never yields an empty string |
| Properties.ReplayKeepsValid | frontend/src/App.tsx:21-66 | from a valid state, given that toString never yields the empty string, the invariant holds after any sequence of keypad clicks, Clears and answers |
| Properties.InitialValid | frontend/src/App.tsx:21-24 | the initial state satisfies the invariant |
| Properties.LoadingMeansInFlight | frontend/src/App.tsx:43-58 | while at most one call is in flight and answers come only to calls sent, the spinner is on exactly while a call is unanswered |
| Properties.FivePlusThreeTyped | frontend/src/App.tsx:26-34 | clicking 5 + 3 from the start stages 5 with "+" and shows "3", with nothing sent |
| Properties.AdditionSession | frontend/src/App.tsx:30-58 | 5 + 3 = sends ("+", 5, 3) and raises the spinner; the answer 8 is shown, the spinner goes off and nothing stays pending |
| Properties.NullAnswerKeepsPending | frontend/src/App.tsx:41-57 | 5 / 0 = answered with null shows "Error" and keeps 5 and "/" pending |

## Left out

- Rendering and styling (`CalculatorPaper`, `DisplayPaper`, the button grid, colours, the spinner element): presentation only.
- What `backend.calculate` computes: it is a remote call whose code is not part of this model. Its answer is an input `Reply`.
- The meaning of `parseFloat` and `toString`: both are uninterpreted. Floating point, and `NaN` (for example from parsing "." or "Error"; the latter is sent when "=" is clicked again after an error), are not modelled.
- `console.error` on a thrown error: logging, with no effect on the state.
- Overlapping backend calls, React render batching and stale closures. A completion is applied atomically to the current fields. The trace lemmas about the spinner assume at most one call in flight (`Session.Serial`).
- Properties.LoadingMeansInFlight: stated only for sessions with at most one call in flight, because the code does not stop a second call while one is outstanding.
- Properties.ReplayKeepsValid: assumes a valid start state and that `toString` never returns the empty string, because the conversion itself is not modelled.
- Properties.NextKeepsValid: assumes `toString` never returns the empty string, because the conversion itself is not modelled.
