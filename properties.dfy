/** What the click handlers promise, one handler at a time and over whole
    sequences of events. */
module Properties {
  import opened Calculator
  import opened Session

  // ---------------------------------------------------------------------
  // Digits and the decimal point

  /** A digit replaces a display of exactly "0" and is appended to any other
      display; no other field changes. */
  lemma NumberClickEffect(s: State, num: string)
    ensures NumberClick(s, num).display == (if s.display == "0" then num else s.display + num)
    ensures NumberClick(s, num).firstOperand == s.firstOperand
    ensures NumberClick(s, num).operation == s.operation
    ensures NumberClick(s, num).loading == s.loading
  {
  }

  /** Typing onto a display other than "0" (and not empty) appends every
      token, in order, and changes nothing else. */
  lemma {:induction false} TypingAppends(s: State, keys: seq<string>)
    requires s.display != "0" && s.display != ""
    ensures TypeKeys(s, keys) == s.(display := s.display + Concat(keys))
    decreases |keys|
  {
    if keys != [] {
      var t := NumberClick(s, keys[0]);
      assert t.display == s.display + keys[0];
      assert t.display != "0" && t.display != "" by {
        if keys[0] != "" { assert |t.display| >= 2; }
        else { assert t.display == s.display; }
      }
      TypingAppends(t, keys[1..]);
      assert TypeKeys(s, keys) == TypeKeys(t, keys[1..]);
      calc {
        t.display + Concat(keys[1..]);
        (s.display + keys[0]) + Concat(keys[1..]);
        s.display + (keys[0] + Concat(keys[1..]));
        s.display + Concat(keys);
      }
    }
  }

  /** From the canonical zero, tokens whose first one is neither "0" nor
      empty leave the display equal to their concatenation. */
  lemma {:induction false} TypingFromZero(s: State, keys: seq<string>)
    requires s.display == "0"
    requires keys != [] && keys[0] != "0" && keys[0] != ""
    ensures TypeKeys(s, keys) == s.(display := Concat(keys))
  {
    var t := NumberClick(s, keys[0]);
    assert t.display == keys[0];
    TypingAppends(t, keys[1..]);
  }

  /** A "0" typed onto the canonical zero is absorbed. */
  lemma LeadingZeroAbsorbed(s: State, keys: seq<string>)
    requires s.display == "0"
    ensures TypeKeys(s, ["0"] + keys) == TypeKeys(s, keys)
  {
    assert (["0"] + keys)[1..] == keys;
  }

  /** Clicking digit buttons is typing their tokens: no backend call, only
      the display changes. */
  lemma {:induction false} DigitClicksType(p: Progress, keys: seq<string>, numbers: NumberText)
    requires forall i :: 0 <= i < |keys| ==> HandlerFor(keys[i]) == NumberHandler
    ensures Replay(p, Clicks(keys), numbers) == Progress(TypeKeys(p.state, keys), p.inFlight)
    decreases |keys|
  {
    if keys != [] {
      assert Clicks(keys)[1..] == Clicks(keys[1..]);
      DigitClicksType(Progress(NumberClick(p.state, keys[0]), p.inFlight), keys[1..], numbers);
    }
  }

  /** Repeated decimal points are accepted: clicking 1 . 2 . 3 from the
      initial state shows "1.2.3". */
  lemma RepeatedPointAccepted(numbers: NumberText)
    ensures Replay(Progress(Initial, 0), Clicks(["1", ".", "2", ".", "3"]), numbers).state.display == "1.2.3"
  {
    var keys := ["1", ".", "2", ".", "3"];
    DigitClicksType(Progress(Initial, 0), keys, numbers);
    TypingFromZero(Initial, keys);
    assert Concat(keys) == "1.2.3";
  }

  // ---------------------------------------------------------------------
  // Operators

  /** With no first operand, an operator click parses the display into the
      first operand, stages the operator and resets the display; the spinner
      is untouched and nothing is sent. */
  lemma OperatorStages(s: State, op: string, numbers: NumberText)
    requires s.firstOperand.None?
    ensures OperationClick(s, op, numbers)
         == Step(State("0", Some(numbers.parseFloat(s.display)), Some(op), s.loading), None)
  {
  }

  /** With a first operand, an operator click sends the pending calculation
      exactly as "=" would and stages the new operator at once. */
  lemma OperatorChains(s: State, op: string, numbers: NumberText)
    requires s.firstOperand.Some?
    ensures OperationClick(s, op, numbers).sent == EqualsClick(s, numbers).sent
    ensures OperationClick(s, op, numbers).state == EqualsClick(s, numbers).state.(operation := Some(op))
  {
  }

  /** A successful answer to a chained operator click clears the operator
      that click staged: the chain does not continue, and the result is
      shown. */
  lemma ChainedOperatorDiscarded(s: State, op: string, v: real, numbers: NumberText)
    requires Valid(s) && s.firstOperand.Some?
    ensures var step := OperationClick(s, op, numbers);
      && step.sent == Some(Calculate(s.operation.value, s.firstOperand.value, numbers.parseFloat(s.display)))
      && step.state.operation == Some(op)
      && Complete(step.state, Value(v), numbers) == State(numbers.toString(v), None, None, false)
  {
  }

  // ---------------------------------------------------------------------
  // Equals and completion

  /** "=" sends a call exactly when a first operand and a non-empty
      operation are held; otherwise it changes nothing at all. */
  lemma EqualsGuard(s: State, numbers: NumberText)
    ensures EqualsClick(s, numbers).sent.Some? <==> CanResolve(s)
    ensures !CanResolve(s) ==> EqualsClick(s, numbers).state == s
    ensures CanResolve(s) ==>
      (EqualsClick(s, numbers)
       == Step(s.(loading := true),
               Some(Calculate(s.operation.value, s.firstOperand.value, numbers.parseFloat(s.display)))))
  {
  }

  /** In a reachable state the guard of "=" reduces to holding a first operand. */
  lemma EqualsGuardWhenValid(s: State)
    requires Valid(s)
    ensures CanResolve(s) <==> s.firstOperand.Some?
  {
  }

  /** A number answer is shown and ends the pending operation. */
  lemma CompleteWithValue(s: State, v: real, numbers: NumberText)
    ensures Complete(s, Value(v), numbers) == State(numbers.toString(v), None, None, false)
  {
  }

  /** A null answer or a thrown error shows "Error" and keeps the pending
      first operand and operation. */
  lemma CompleteWithError(s: State, reply: Reply, numbers: NumberText)
    requires !reply.Value?
    ensures Complete(s, reply, numbers) == s.(display := "Error", loading := false)
  {
  }

  /** The spinner is up right after a call is sent, by "=" or by a chained
      operator, and down after any answer. */
  lemma LoadingAroundCall(s: State, op: string, reply: Reply, numbers: NumberText)
    ensures EqualsClick(s, numbers).sent.Some? ==> EqualsClick(s, numbers).state.loading
    ensures OperationClick(s, op, numbers).sent.Some? ==> OperationClick(s, op, numbers).state.loading
    ensures !Complete(s, reply, numbers).loading
  {
  }

  // ---------------------------------------------------------------------
  // Clear

  /** Clear restores the initial display and pending fields, keeps the
      spinner, and a second Clear changes nothing. */
  lemma ClearResets(s: State)
    ensures Clear(s) == Initial.(loading := s.loading)
    ensures Clear(Clear(s)) == Clear(s)
  {
  }

  // ---------------------------------------------------------------------
  // Invariants over sessions

  /** Every keypad click keeps a reachable state reachable. */
  lemma PressKeepsValid(s: State, button: string, numbers: NumberText)
    requires Valid(s) && button in Buttons
    ensures Valid(Press(s, button, numbers).state)
  {
    if HandlerFor(button) == NumberHandler {
      assert button != "";
    }
  }

  /** Every event keeps a reachable state reachable, provided `toString`
      never yields an empty string. */
  lemma NextKeepsValid(p: Progress, e: Event, numbers: NumberText)
    requires Valid(p.state) && NonEmptyText(numbers)
    requires e.Click? ==> e.button in Buttons
    ensures Valid(Next(p, e, numbers).state)
  {
    match e
    case Click(button) => PressKeepsValid(p.state, button, numbers);
    case ClearClick =>
    case Arrive(reply) =>
  }

  /** The invariant holds after any keypad session from a valid state. */
  lemma {:induction false} ReplayKeepsValid(p: Progress, events: seq<Event>, numbers: NumberText)
    requires Valid(p.state) && NonEmptyText(numbers) && FromKeypad(events)
    ensures Valid(Replay(p, events, numbers).state)
    decreases |events|
  {
    if events != [] {
      NextKeepsValid(p, events[0], numbers);
      assert FromKeypad(events[1..]) by {
        forall i | 0 <= i < |events[1..]| && events[1..][i].Click?
          ensures events[1..][i].button in Buttons
        {
          assert events[1..][i] == events[i + 1];
        }
      }
      ReplayKeepsValid(Next(p, events[0], numbers), events[1..], numbers);
    }
  }

  /** The initial state is valid. */
  lemma InitialValid()
    ensures Valid(Initial)
  {
  }

  /** With at most one backend call in flight, the spinner is up exactly while
      a call is unanswered. */
  lemma {:induction false} LoadingMeansInFlight(p: Progress, events: seq<Event>, numbers: NumberText)
    requires p.inFlight <= 1 && p.state.loading == (p.inFlight == 1)
    requires Serial(p, events, numbers)
    ensures Replay(p, events, numbers).inFlight <= 1
    ensures Replay(p, events, numbers).state.loading == (Replay(p, events, numbers).inFlight == 1)
    decreases |events|
  {
    if events != [] {
      var q := Next(p, events[0], numbers);
      match events[0] {
      case Click(button) =>
        var step := Press(p.state, button, numbers);
        if step.sent.Some? {
          assert step.state.loading by {
            match HandlerFor(button)
            case EqualsHandler =>
            case OperationHandler =>
            case NumberHandler =>
          }
        } else {
          assert step.state.loading == p.state.loading by {
            match HandlerFor(button)
            case EqualsHandler =>
            case OperationHandler =>
            case NumberHandler =>
          }
        }
      case ClearClick =>
      case Arrive(reply) =>
      }
      LoadingMeansInFlight(q, events[1..], numbers);
    }
  }

  // ---------------------------------------------------------------------
  // Whole sessions

  /** Replaying from position k is taking the event at k, then replaying from k + 1. */
  lemma ReplayAt(p: Progress, events: seq<Event>, k: nat, numbers: NumberText)
    requires k < |events|
    ensures Replay(p, events[k..], numbers) == Replay(Next(p, events[k], numbers), events[k + 1..], numbers)
  {
    assert events[k..][0] == events[k] && events[k..][1..] == events[k + 1..];
  }

  /** Clicking 5 + 3 stages the addition with 5 and shows "3". */
  lemma FivePlusThreeTyped(numbers: NumberText)
    requires numbers.parseFloat("5") == 5.0
    ensures Replay(Progress(Initial, 0), [Click("5"), Click("+"), Click("3")], numbers)
         == Progress(State("3", Some(5.0), Some("+"), false), 0)
  {
    // The intermediate states, one event at a time.
    var events := [Click("5"), Click("+"), Click("3")];
    var p0 := Progress(Initial, 0);
    var p1 := Progress(State("5", None, None, false), 0);
    var p2 := Progress(State("0", Some(5.0), Some("+"), false), 0);
    var p3 := Progress(State("3", Some(5.0), Some("+"), false), 0);
    assert Next(p0, Click("5"), numbers) == p1;
    assert Next(p1, Click("+"), numbers) == p2;
    assert Next(p2, Click("3"), numbers) == p3;
    assert events[0..] == events && events[3..] == [];
    ReplayAt(p0, events, 0, numbers);
    ReplayAt(p1, events, 1, numbers);
    ReplayAt(p2, events, 2, numbers);
  }

  /** 5 + 3 = with the answer 8: the backend is asked for ("+", 5, 3), the
      spinner is up until the answer arrives, the answer is shown and nothing
      stays pending. */
  lemma AdditionSession(numbers: NumberText)
    requires numbers.parseFloat("5") == 5.0 && numbers.parseFloat("3") == 3.0
    ensures var typed := Progress(State("3", Some(5.0), Some("+"), false), 0);
      && Replay(Progress(Initial, 0), [Click("5"), Click("+"), Click("3")], numbers) == typed
      && Press(typed.state, "=", numbers).sent == Some(Calculate("+", 5.0, 3.0))
      && Next(typed, Click("="), numbers) == Progress(typed.state.(loading := true), 1)
      && Replay(typed, [Click("="), Arrive(Value(8.0))], numbers)
         == Progress(State(numbers.toString(8.0), None, None, false), 0)
  {
    // The intermediate states, one event at a time.
    FivePlusThreeTyped(numbers);
    var typed := Progress(State("3", Some(5.0), Some("+"), false), 0);
    var sent := Progress(typed.state.(loading := true), 1);
    var done := Progress(State(numbers.toString(8.0), None, None, false), 0);
    assert Press(typed.state, "=", numbers) == Step(sent.state, Some(Calculate("+", 5.0, 3.0)));
    assert Next(typed, Click("="), numbers) == sent;
    assert Next(sent, Arrive(Value(8.0)), numbers) == done;
    var answer := [Click("="), Arrive(Value(8.0))];
    assert answer[0..] == answer && answer[2..] == [];
    ReplayAt(typed, answer, 0, numbers);
    ReplayAt(sent, answer, 1, numbers);
  }

  /** 5 / 0 = answered with null: "Error" is shown, but the division and its
      first operand stay pending. */
  lemma NullAnswerKeepsPending(numbers: NumberText)
    requires numbers.parseFloat("5") == 5.0
    ensures Replay(Progress(Initial, 0), [Click("5"), Click("/"), Click("0"), Click("="), Arrive(NullResult)], numbers)
         == Progress(State("Error", Some(5.0), Some("/"), false), 0)
  {
    // The intermediate states, one event at a time.
    var events := [Click("5"), Click("/"), Click("0"), Click("="), Arrive(NullResult)];
    var p0 := Progress(Initial, 0);
    var p1 := Progress(State("5", None, None, false), 0);
    var p2 := Progress(State("0", Some(5.0), Some("/"), false), 0);
    var p3 := Progress(State("0", Some(5.0), Some("/"), true), 1);
    var p4 := Progress(State("Error", Some(5.0), Some("/"), false), 0);
    assert Next(p0, Click("5"), numbers) == p1;
    assert Next(p1, Click("/"), numbers) == p2;
    assert Next(p2, Click("0"), numbers) == p2;
    assert Next(p2, Click("="), numbers) == p3;
    assert Next(p3, Arrive(NullResult), numbers) == p4;
    assert events[0..] == events && events[5..] == [];
    ReplayAt(p0, events, 0, numbers);
    ReplayAt(p1, events, 1, numbers);
    ReplayAt(p2, events, 2, numbers);
    ReplayAt(p2, events, 3, numbers);
    ReplayAt(p3, events, 4, numbers);
  }
}
