/** The calculator controller of the `App` component: its four state fields,
    its keypad, and each click handler as a transition on those fields.

    The arithmetic itself happens in a remote `backend.calculate` call; here a
    handler that starts such a call returns the `Request` it sends, and the
    answer comes back later as a `Reply` that `Complete` applies. */
module Calculator {

  datatype Option<T> = None | Some(value: T)

  /** The two number conversions the component uses, `parseFloat` and
      `Number.prototype.toString`, left uninterpreted. */
  datatype NumberText = NumberText(parseFloat: string -> real, toString: real -> string)

  /** The four `useState` fields of `App`: the display text, the first operand
      (`number | null`), the pending operation (`string | null`) and the
      spinner flag. */
  datatype State = State(
    display: string,
    firstOperand: Option<real>,
    operation: Option<string>,
    loading: bool)

  /** The initial values given to `useState`. */
  const Initial: State := State("0", None, None, false)

  const ErrorText: string := "Error"

  /** The arguments of one call to `backend.calculate`. */
  datatype Request = Calculate(operation: string, firstOperand: real, secondOperand: real)

  /** How a call to `backend.calculate` ends: a number, `null`, or a thrown error. */
  datatype Reply = Value(result: real) | NullResult | Threw

  /** The state after a click, and the backend call the click started, if any. */
  datatype Step = Step(state: State, sent: Option<Request>)

  /** The sixteen keypad buttons, row by row; Clear is a separate button. */
  const Buttons: seq<string> := [
    "7", "8", "9", "/",
    "4", "5", "6", "*",
    "1", "2", "3", "-",
    "0", ".", "=", "+"
  ]

  /** The buttons routed to the operation handler. */
  const OperatorKeys: seq<string> := ["+", "-", "*", "/"]

  /** The display after a digit or point is typed: the canonical zero is
      replaced by the token, anything else is extended by it. Nothing rejects
      a second decimal point. */
  function AfterDigit(prev: string, num: string): (r: string)
  {
    if prev == "0" then num else prev + num
  }

  /** `handleNumberClick(num)`. */
  function NumberClick(s: State, num: string): State
  {
    s.(display := AfterDigit(s.display, num))
  }

  /** The guard of `handleEqualsClick`: a first operand is held and the
      operation is neither null nor the (falsy) empty string. */
  predicate CanResolve(s: State)
  {
    s.firstOperand.Some? && s.operation.Some? && s.operation.value != ""
  }

  /** The synchronous part of `handleEqualsClick`, up to the awaited backend
      call: raise the spinner and send the pending operation, the first operand
      and the parsed display. */
  function EqualsClick(s: State, numbers: NumberText): Step
  {
    if CanResolve(s) then
      Step(s.(loading := true),
           Some(Calculate(s.operation.value, s.firstOperand.value, numbers.parseFloat(s.display))))
    else
      Step(s, None)
  }

  /** The rest of `handleEqualsClick`, once the backend call has ended. A
      number is shown and ends the pending operation; `null` and a thrown
      error show the error marker and leave the pending fields as they were.
      The spinner is lowered in every case. */
  function Complete(s: State, reply: Reply, numbers: NumberText): State
  {
    match reply
    case Value(v) =>
      s.(display := numbers.toString(v), firstOperand := None, operation := None, loading := false)
    case NullResult => s.(display := ErrorText, loading := false)
    case Threw => s.(display := ErrorText, loading := false)
  }

  /** `handleOperationClick(op)`. Without a first operand the display becomes
      the first operand; with one, the pending operation is sent (as `=`
      would) and, without waiting for the answer, `op` becomes the operation. */
  function OperationClick(s: State, op: string, numbers: NumberText): Step
  {
    if s.firstOperand.None? then
      Step(s.(firstOperand := Some(numbers.parseFloat(s.display)), operation := Some(op), display := "0"),
           None)
    else
      var equals := EqualsClick(s, numbers);
      Step(equals.state.(operation := Some(op)), equals.sent)
  }

  /** `handleClear`: the display and the pending fields go back to their
      initial values; the spinner is not touched. */
  function Clear(s: State): State
  {
    s.(display := "0", firstOperand := None, operation := None)
  }

  /** Which handler a keypad button is routed to. */
  datatype Handler = EqualsHandler | OperationHandler | NumberHandler

  function HandlerFor(button: string): (h: Handler)
    ensures h == EqualsHandler <==> button == "="
    ensures h == OperationHandler <==> button in OperatorKeys
  {
    if button == "=" then EqualsHandler
    else if button in OperatorKeys then OperationHandler
    else NumberHandler
  }

  /** The `onClick` of a keypad button. */
  function Press(s: State, button: string, numbers: NumberText): Step
  {
    match HandlerFor(button)
    case EqualsHandler => EqualsClick(s, numbers)
    case OperationHandler => OperationClick(s, button, numbers)
    case NumberHandler => Step(NumberClick(s, button), None)
  }

  /** `toString` never yields the empty string. */
  ghost predicate NonEmptyText(numbers: NumberText)
  {
    forall x :: numbers.toString(x) != ""
  }

  /** What every reachable state satisfies: something is displayed, a first
      operand is held exactly when an operation is, and that operation is one
      of the four operator buttons. */
  predicate Valid(s: State)
  {
    && s.display != ""
    && (s.firstOperand.Some? <==> s.operation.Some?)
    && (s.operation.Some? ==> s.operation.value in OperatorKeys)
  }
}
