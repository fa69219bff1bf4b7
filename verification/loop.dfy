/** The shape of `main`'s `while True` loop, apart from what one line does:
    read an event, stop at Ctrl-C or at a line whose turn is `exit`, and
    otherwise record the line's turn and read again. The loop is given the
    treatment of one line as a function `step`, so these facts hold whatever
    the lines mean. */
module Loop {

  import opened Wrappers

  /** What the loop gets from one `input()` call: a line, or Ctrl-C. Running
      out of events is end of input. */
  datatype Event = Line(text: string) | Interrupt

  /** What one iteration of the loop does. */
  datatype Turn =
    | Idle                                               // blank line, nothing sent
    | Goodbye                                            // `exit`: loop left
    | Interrupted                                        // Ctrl-C while reading: loop left
    | Closed                                             // end of input: loop left
    | Ran(prompt: string, outcome: Result<string, string>) // prompt sent, reply or error printed
    | Failed(error: string)                              // a command method raised, nothing sent
    | ReadFailed(error: string)                          // `input()` raised; reported, reading resumes
    | Unavailable                                        // free-form line but no agent, nothing sent

  /** The turns after which the loop is left. */
  predicate Terminal(t: Turn) {
    t.Goodbye? || t.Interrupted? || t.Closed?
  }

  /** What one iteration does with the line it read. */
  type Stepper = string -> Turn

  /** The loop with end of input ending it: one turn per event read, and a
      terminal turn last. */
  function Drive(step: Stepper, events: seq<Event>): (ts: seq<Turn>)
    ensures 1 <= |ts| <= |events| + 1
    ensures Terminal(ts[|ts| - 1])
    decreases |events|
  {
    if events == [] then [Closed]
    else match events[0]
      case Interrupt => [Interrupted]
      case Line(l) =>
        var t := step(l);
        if t.Goodbye? then [Goodbye] else [t] + Drive(step, events[1..])
  }

  /** Every turn before the last is the turn of the line read at the same
      position, and is not `exit`; the loop ends at end of input exactly when
      it read every event; otherwise the last event read is the Ctrl-C or the
      line whose turn is `exit`. */
  lemma {:induction false} DriveShape(step: Stepper, events: seq<Event>)
    ensures var ts := Drive(step, events);
      && (forall i :: 0 <= i < |ts| - 1 ==>
            events[i].Line? && ts[i] == step(events[i].text) && !ts[i].Goodbye?)
      && (ts[|ts| - 1].Closed? <==> |ts| == |events| + 1)
      && (ts[|ts| - 1].Interrupted? ==> events[|ts| - 1] == Interrupt)
      && (ts[|ts| - 1].Goodbye? ==>
            events[|ts| - 1].Line? && step(events[|ts| - 1].text).Goodbye?)
    decreases |events|
  {
    if events != [] && events[0].Line? && !step(events[0].text).Goodbye? {
      var t := step(events[0].text);
      var rest := Drive(step, events[1..]);
      DriveShape(step, events[1..]);
      assert Drive(step, events) == [t] + rest;
      forall i | 1 <= i < |rest|
        ensures events[i].Line? && ([t] + rest)[i] == step(events[i].text)
      {
        assert events[1..][i - 1] == events[i];
      }
    }
  }

  /** Reading the first event: Ctrl-C and `exit` end the loop at once;
      any other line adds its turn in front of the rest. */
  lemma DriveFirst(step: Stepper, events: seq<Event>)
    requires events != []
    ensures events[0].Interrupt? ==> Drive(step, events) == [Interrupted]
    ensures events[0].Line? && step(events[0].text).Goodbye? ==>
              Drive(step, events) == [Goodbye]
    ensures events[0].Line? && !step(events[0].text).Goodbye? ==>
              Drive(step, events) == [step(events[0].text)] + Drive(step, events[1..])
  {
  }

  /** The message of the `EOFError` that `input()` raises at end of input. */
  const EofError := "EOF when reading a line"

  /** The loop exactly as written, for at most `fuel` iterations: at end of
      input `input()` raises `EOFError`, which the loop's generic exception
      handler reports before reading again. */
  function DriveAsWritten(step: Stepper, events: seq<Event>, fuel: nat): (ts: seq<Turn>)
    ensures |ts| <= fuel
    decreases fuel
  {
    if fuel == 0 then []
    else if events == [] then [ReadFailed(EofError)] + DriveAsWritten(step, [], fuel - 1)
    else match events[0]
      case Interrupt => [Interrupted]
      case Line(l) =>
        var t := step(l);
        if t.Goodbye? then [Goodbye]
        else [t] + DriveAsWritten(step, events[1..], fuel - 1)
  }

  /** At end of input the loop as written uses every iteration it is given,
      each reporting the same error, and none of them is terminal. */
  lemma {:induction false} AsWrittenAtEof(step: Stepper, fuel: nat)
    ensures var ts := DriveAsWritten(step, [], fuel);
      |ts| == fuel && forall i :: 0 <= i < |ts| ==> ts[i] == ReadFailed(EofError)
    decreases fuel
  {
    if fuel > 0 {
      AsWrittenAtEof(step, fuel - 1);
    }
  }

  /** The loop as written reads the first event as `Drive` does. */
  lemma AsWrittenFirst(step: Stepper, events: seq<Event>, fuel: nat)
    requires events != [] && fuel > 0
    ensures events[0].Interrupt? ==> DriveAsWritten(step, events, fuel) == [Interrupted]
    ensures events[0].Line? && step(events[0].text).Goodbye? ==>
              DriveAsWritten(step, events, fuel) == [Goodbye]
    ensures events[0].Line? && !step(events[0].text).Goodbye? ==>
              DriveAsWritten(step, events, fuel)
                == [step(events[0].text)] + DriveAsWritten(step, events[1..], fuel - 1)
  {
  }

  /** The two loops differ only at end of input: with enough iterations, a
      run that ends by `exit` or Ctrl-C is the same under both. */
  lemma {:induction false} AsWrittenAgrees(step: Stepper, events: seq<Event>, fuel: nat)
    requires fuel >= |events|
    requires !Drive(step, events)[|Drive(step, events)| - 1].Closed?
    ensures DriveAsWritten(step, events, fuel) == Drive(step, events)
    decreases |events|
  {
    if events != [] {
      DriveFirst(step, events);
      AsWrittenFirst(step, events, fuel);
      if events[0].Line? && !step(events[0].text).Goodbye? {
        var whole, rest := Drive(step, events), Drive(step, events[1..]);
        assert whole == [step(events[0].text)] + rest;
        assert !rest[|rest| - 1].Closed?;
        AsWrittenAgrees(step, events[1..], fuel - 1);
      }
    }
  }
}
