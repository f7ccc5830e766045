/** Sequences of user clicks and backend answers driving the calculator, one
    event at a time, with a count of the backend calls still unanswered. */
module Session {
  import opened Calculator

  /** A keypad click, a click on Clear, or the arrival of a backend answer. */
  datatype Event = Click(button: string) | ClearClick | Arrive(reply: Reply)

  /** The controller's state and the number of backend calls sent whose
      answer has not arrived yet. */
  datatype Progress = Progress(state: State, inFlight: nat)

  function Next(p: Progress, e: Event, numbers: NumberText): Progress
  {
    match e
    case Click(button) =>
      var step := Press(p.state, button, numbers);
      Progress(step.state, if step.sent.Some? then p.inFlight + 1 else p.inFlight)
    case ClearClick => Progress(Clear(p.state), p.inFlight)
    case Arrive(reply) =>
      Progress(Complete(p.state, reply, numbers), if p.inFlight == 0 then 0 else p.inFlight - 1)
  }

  /** The progress after the events, in order. */
  function Replay(p: Progress, events: seq<Event>, numbers: NumberText): Progress
    decreases |events|
  {
    if events == [] then p else Replay(Next(p, events[0], numbers), events[1..], numbers)
  }

  /** The events keep at most one backend call in flight, and an answer only
      arrives for a call that was sent. */
  predicate Serial(p: Progress, events: seq<Event>, numbers: NumberText)
    decreases |events|
  {
    events == [] ||
    (var q := Next(p, events[0], numbers);
     && (events[0].Arrive? ==> p.inFlight == 1)
     && q.inFlight <= 1
     && Serial(q, events[1..], numbers))
  }

  /** Every click is on a keypad button. */
  predicate FromKeypad(events: seq<Event>)
  {
    forall i :: 0 <= i < |events| && events[i].Click? ==> events[i].button in Buttons
  }

  /** `handleNumberClick` called once per token, in order. */
  function TypeKeys(s: State, keys: seq<string>): State
    decreases |keys|
  {
    if keys == [] then s else TypeKeys(NumberClick(s, keys[0]), keys[1..])
  }

  /** The tokens written one after another. */
  function Concat(keys: seq<string>): string
    decreases |keys|
  {
    if keys == [] then "" else keys[0] + Concat(keys[1..])
  }

  /** One click per token. */
  function Clicks(keys: seq<string>): (events: seq<Event>)
    ensures |events| == |keys|
    ensures forall i :: 0 <= i < |keys| ==> events[i] == Click(keys[i])
    decreases |keys|
  {
    if keys == [] then [] else [Click(keys[0])] + Clicks(keys[1..])
  }
}
