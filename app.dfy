/** The `App` component as an object: its four state fields are updated in
    place by the click handlers, in the order the handlers call their state
    setters. Each handler is specified by the transition of module
    `Calculator` it implements. */
module AppComponent {
  import opened Calculator

  class App {
    var display: string
    var firstOperand: Option<real>
    var operation: Option<string>
    var loading: bool

    /** `parseFloat` and `toString` as this component sees them. */
    const numbers: NumberText

    /** The four fields as one value. */
    function Fields(): State
      reads this
    {
      State(display, firstOperand, operation, loading)
    }

    constructor (numbers: NumberText)
      ensures Fields() == Initial && this.numbers == numbers
    {
      this.numbers := numbers;
      display := "0";
      firstOperand := None;
      operation := None;
      loading := false;
    }

    method HandleNumberClick(num: string)
      modifies this
      ensures Fields() == NumberClick(old(Fields()), num)
    {
      display := AfterDigit(display, num);
    }

    /** Starts the backend call if one is due and returns what it sends; the
        answer is applied later by `CompleteEquals`. */
    method HandleEqualsClick() returns (sent: Option<Request>)
      modifies this
      ensures Step(Fields(), sent) == EqualsClick(old(Fields()), numbers)
    {
      sent := None;
      if firstOperand.Some? && operation.Some? && operation.value != "" {
        loading := true;
        sent := Some(Calculate(operation.value, firstOperand.value, numbers.parseFloat(display)));
      }
    }

    /** The continuation of `HandleEqualsClick` after the backend call ends. */
    method CompleteEquals(reply: Reply)
      modifies this
      ensures Fields() == Complete(old(Fields()), reply, numbers)
    {
      match reply {
        case Value(v) =>
          display := numbers.toString(v);
          firstOperand := None;
          operation := None;
        case NullResult =>
          display := ErrorText;
        case Threw =>
          display := ErrorText;
      }
      loading := false;
    }

    method HandleOperationClick(op: string) returns (sent: Option<Request>)
      modifies this
      ensures Step(Fields(), sent) == OperationClick(old(Fields()), op, numbers)
    {
      if firstOperand.None? {
        firstOperand := Some(numbers.parseFloat(display));
        operation := Some(op);
        display := "0";
        sent := None;
      } else {
        sent := HandleEqualsClick();
        operation := Some(op);
      }
    }

    method HandleClear()
      modifies this
      ensures Fields() == Clear(old(Fields()))
    {
      display := "0";
      firstOperand := None;
      operation := None;
    }

    /** The `onClick` of a keypad button. */
    method Click(button: string) returns (sent: Option<Request>)
      modifies this
      ensures Step(Fields(), sent) == Press(old(Fields()), button, numbers)
    {
      if button == "=" {
        sent := HandleEqualsClick();
      } else if button in OperatorKeys {
        sent := HandleOperationClick(button);
      } else {
        HandleNumberClick(button);
        sent := None;
      }
    }
  }
}
