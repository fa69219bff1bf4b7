/** `main`: start-up (configuration, `initialize`, the example `list_jobs`
    call) and the interactive loop that reads lines, classifies them and
    hands each command to the agent class. The model's run is a parameter
    `run`, whose `Failure` stands for an exception it raises. */
module Repl {

  import opened Wrappers
  import opened Loop
  import opened Commands
  import opened CsvAgent
  import Prompts
  import Settings
  import PyText

  /** The agent's `run`: a reply, or the message of what it raised. */
  type Runner = string -> Result<string, string>

  /** Hands a command method's prompt to the model, or reports what it raised. */
  function Forward(run: Runner, prompt: Result<string, string>): (t: Turn)
    ensures prompt.Failure? ==> t == Failed(prompt.error)
    ensures prompt.Success? ==> t == Ran(prompt.value, run(prompt.value))
  {
    match prompt
    case Failure(e) => Failed(e)
    case Success(p) => Ran(p, run(p))
  }

  /** One branch of the loop's if-chain for an already classified line. */
  function Dispatch(st: AgentState, run: Runner, c: Command): (t: Turn)
    ensures t.Idle? <==> c.Skip?
    ensures Terminal(t) <==> c.Exit?
    ensures t.Ran? ==> st.agent.Some? && t.outcome == run(t.prompt)
    ensures st.agent.None? ==> !t.Ran?
    ensures t.Unavailable? <==> c.FreeForm? && st.agent.None?
    ensures t.Failed? <==> (c.List? || HasArgument(c)) && st.agent.None?
    ensures t.Failed? ==> t.error == NotInitialized
    ensures st.agent.Some? ==> (t.Ran? <==> c.List? || HasArgument(c) || c.FreeForm?)
  {
    match c
    case Skip => Idle
    case Exit => Goodbye
    case List => Forward(run, ListJobs(st))
    case Status(id) => Forward(run, GetJobStatus(st, id))
    case Query(table) => Forward(run, QueryTable(st, table, Prompts.DefaultLimit))
    case Analyze(table) => Forward(run, AnalyzeData(st, table))
    case FreeForm(text) => if st.agent.None? then Unavailable else Ran(text, run(text))
  }

  /** With an agent, each command reaches the model with the prompt of the
      matching command method; free text goes through unchanged, and a query
      uses the default limit of 100 rows. */
  lemma DispatchPrompts(st: AgentState, run: Runner, c: Command)
    requires st.agent.Some?
    ensures var t := Dispatch(st, run, c);
      && (c.FreeForm? ==> t.Ran? && t.prompt == c.text)
      && (c.List? ==> t.Ran? && t.prompt == Prompts.ListPrompt)
      && (c.Status? ==> t.Ran? && t.prompt == Prompts.StatusPrompt(c.arg))
      && (c.Query? ==> t.Ran? && t.prompt == Prompts.QueryPrompt(c.arg, Prompts.DefaultLimit))
      && (c.Analyze? ==> t.Ran? && t.prompt == Prompts.AnalyzePrompt(c.arg))
  {
  }

  /** One iteration of the loop on one input line. */
  function Step(st: AgentState, run: Runner, line: string): (t: Turn)
    ensures t.Idle? <==> PyText.AllSpace(line)
    ensures Terminal(t) <==> t.Goodbye?
    ensures t.Goodbye? <==> PyText.Lower(PyText.Strip(line)) == "exit"
    ensures !t.ReadFailed?
  {
    ClassifyCases(line);
    Dispatch(st, run, Classify(line))
  }

  /** The loop's treatment of one line, for a given agent state. */
  function StepOf(st: AgentState, run: Runner): (step: Stepper)
    ensures forall l :: step(l) == Step(st, run, l)
  {
    l => Step(st, run, l)
  }

  /** The loop over a whole input, corrected so that end of input ends it
      (see `LoopAsWritten` for the loop as written): it stops at the first
      `exit`, Ctrl-C or the end of input, with one turn per event read and a
      terminal turn last. */
  function Session(st: AgentState, run: Runner, events: seq<Event>): (ts: seq<Turn>)
    ensures 1 <= |ts| <= |events| + 1
    ensures Terminal(ts[|ts| - 1])
  {
    Drive(StepOf(st, run), events)
  }

  /** A session has exactly one terminal turn, the last; every turn before it
      comes from the line read at the same position, so an error in one turn
      never ends the session; it ends at the end of input only when every
      event was a line and none was `exit`; otherwise the last event read is
      the Ctrl-C or the `exit` that ended it. */
  lemma SessionShape(st: AgentState, run: Runner, events: seq<Event>)
    ensures var ts := Session(st, run, events);
      && (forall i :: 0 <= i < |ts| - 1 ==>
            events[i].Line? && ts[i] == Step(st, run, events[i].text) && !Terminal(ts[i]))
      && (ts[|ts| - 1].Closed? <==> |ts| == |events| + 1)
      && (ts[|ts| - 1].Interrupted? ==> events[|ts| - 1] == Interrupt)
      && (ts[|ts| - 1].Goodbye? ==>
            events[|ts| - 1].Line? && Classify(events[|ts| - 1].text) == Exit)
  {
    var step := StepOf(st, run);
    DriveShape(step, events);
    var ts := Session(st, run, events);
    if ts[|ts| - 1].Goodbye? {
      var l := events[|ts| - 1].text;
      assert Step(st, run, l).Goodbye?;
      ClassifyCases(l);
    }
  }

  /** The `while True` loop itself, iterating over the input, with end of
      input ending it as in `Session`. */
  method RunLoop(st: AgentState, run: Runner, events: seq<Event>) returns (ts: seq<Turn>)
    ensures ts == Session(st, run, events)
  {
    var step := StepOf(st, run);
    ts := [];
    var i := 0;
    while i < |events|
      invariant 0 <= i <= |events|
      invariant ts + Drive(step, events[i..]) == Drive(step, events)
    {
      var rest := events[i..];
      DriveFirst(step, rest);
      match events[i]
      case Interrupt =>
        ts := ts + [Interrupted];
        return;
      case Line(l) =>
        var t := Step(st, run, l);
        if t.Goodbye? {
          ts := ts + [Goodbye];
          return;
        }
        assert rest[1..] == events[i + 1..];
        ts := ts + [t];
        i := i + 1;
    }
    assert events[i..] == [];
    ts := ts + [Closed];
  }

  /** The loop exactly as written, for at most `fuel` iterations: at end of
      input `input()` raises `EOFError`, which the loop's generic exception
      handler reports before reading again. */
  function LoopAsWritten(st: AgentState, run: Runner, events: seq<Event>, fuel: nat)
    : (ts: seq<Turn>)
    ensures |ts| <= fuel
  {
    DriveAsWritten(StepOf(st, run), events, fuel)
  }

  /** Once input is exhausted the loop as written never ends: however many
      iterations it is given, each one reports the same error and none is
      terminal. */
  lemma EofNeverEnds(st: AgentState, run: Runner, fuel: nat)
    ensures var ts := LoopAsWritten(st, run, [], fuel);
      |ts| == fuel && forall i :: 0 <= i < |ts| ==> ts[i] == ReadFailed(EofError)
  {
    AsWrittenAtEof(StepOf(st, run), fuel);
  }

  /** The concrete case: an empty input that the loop as written reads a
      hundred times without leaving. */
  lemma EmptyInputSpins(st: AgentState, run: Runner)
    ensures |LoopAsWritten(st, run, [], 100)| == 100
    ensures LoopAsWritten(st, run, [], 100)[99] == ReadFailed(EofError)
    ensures Session(st, run, []) == [Closed]
  {
    EofNeverEnds(st, run, 100);
  }

  /** The two loops differ only at end of input: a session that ends by
      `exit` or Ctrl-C is the same under both. */
  lemma AsWrittenAgreesBeforeEof(st: AgentState, run: Runner, events: seq<Event>, fuel: nat)
    requires fuel >= |events|
    requires !Session(st, run, events)[|Session(st, run, events)| - 1].Closed?
    ensures LoopAsWritten(st, run, events, fuel) == Session(st, run, events)
  {
    AsWrittenAgrees(StepOf(st, run), events, fuel);
  }

  /** What start-up leaves: an abort with the message printed, or an agent
      ready for the loop together with the example listing's reply. */
  datatype Launch = Aborted(error: string) | Ready(st: AgentState, listing: string)

  /** `main` up to the interactive loop. The configuration comes from the
      environment; the agent is built from it with the default model;
      `initialize` runs on what discovery produced; then `list_jobs` runs
      once as an example. An exception anywhere aborts. With no tools,
      `initialize` leaves the agent unset, so the example call raises and
      start-up aborts: the loop is reached only with an agent. */
  function Start(env: Settings.Env, discovered: Result<seq<Tool>, string>, run: Runner)
    : (r: Launch)
    ensures r.Ready? <==>
              discovered.Success? && discovered.value != [] && run(Prompts.ListPrompt).Success?
    ensures discovered.Failure? ==> r == Aborted(discovered.error)
    ensures discovered.Success? && discovered.value == [] ==> r == Aborted(NotInitialized)
    ensures r.Ready? ==>
              && r.st.agent.Some? && r.st.agent.value.tools == discovered.value
              && r.st.serverUrl == Settings.LoadConfig(env).serverUrl
              && r.st.apiKey == Settings.LoadConfig(env).apiKey
              && r.st.modelId == "gpt-4"
              && Success(r.listing) == run(Prompts.ListPrompt)
  {
    var cfg := Settings.LoadConfig(env);
    var st := NewAgent(cfg.serverUrl, cfg.apiKey, cfg.modelId);
    match Initialize(st, discovered)
    case Failure(e) => Aborted(e)
    case Success(st') =>
      match ListJobs(st')
      case Failure(e) => Aborted(e)
      case Success(p) =>
        match run(p)
        case Failure(e) => Aborted(e)
        case Success(reply) => Ready(st', reply)
  }

  /** How the process ends and what the loop did. */
  datatype Outcome = Outcome(exitCode: int, turns: seq<Turn>)

  /** The whole program: exit status 1 after a failed start-up, else the
      session and status 0. */
  function RunProgram(env: Settings.Env, discovered: Result<seq<Tool>, string>, run: Runner,
                      events: seq<Event>): (o: Outcome)
    ensures o.exitCode == 1 <==> Start(env, discovered, run).Aborted?
    ensures o.exitCode == 0 <==> Start(env, discovered, run).Ready?
    ensures o.exitCode == 1 ==> o.turns == []
    ensures o.exitCode == 0 ==> |o.turns| >= 1 && Terminal(o.turns[|o.turns| - 1])
  {
    match Start(env, discovered, run)
    case Aborted(_) => Outcome(1, [])
    case Ready(st, _) => Outcome(0, Session(st, run, events))
  }

  /** Start-up only proceeds with an agent, so no turn of the session is ever
      refused for want of one: the loop's own "not initialized" branches are
      unreachable from `main`. */
  lemma {:induction false} ProgramNeverRefuses(env: Settings.Env,
                                               discovered: Result<seq<Tool>, string>,
                                               run: Runner, events: seq<Event>)
    ensures var ts := RunProgram(env, discovered, run, events).turns;
      forall i :: 0 <= i < |ts| ==> !ts[i].Unavailable? && !ts[i].Failed? && !ts[i].ReadFailed?
  {
    var r := Start(env, discovered, run);
    if r.Ready? {
      assert r.st.agent.Some?;
      SessionNeverRefuses(r.st, run, events);
      assert RunProgram(env, discovered, run, events).turns == Session(r.st, run, events);
    }
  }

  /** With an agent, no turn of a session is a refusal. */
  lemma SessionNeverRefuses(st: AgentState, run: Runner, events: seq<Event>)
    requires st.agent.Some?
    ensures var ts := Session(st, run, events);
      forall i :: 0 <= i < |ts| ==> !ts[i].Unavailable? && !ts[i].Failed? && !ts[i].ReadFailed?
  {
    SessionShape(st, run, events);
    var ts := Session(st, run, events);
    forall i | 0 <= i < |ts| ensures !ts[i].Unavailable? && !ts[i].Failed? && !ts[i].ReadFailed? {
      if i < |ts| - 1 {
        assert ts[i] == Step(st, run, events[i].text);
      }
    }
  }

  /** The worked example: `STATUS job-42` with an agent sends the status
      prompt for `job-42`, whatever the case of the keyword. */
  lemma StatusExample(st: AgentState, run: Runner)
    requires st.agent.Some?
    ensures var prompt := Prompts.StatusPrompt("job-42");
            Step(st, run, "STATUS job-42") == Ran(prompt, run(prompt))
  {
    ClassifyStatusExample();
    var t := Dispatch(st, run, Status("job-42"));
    DispatchPrompts(st, run, Status("job-42"));
    assert Step(st, run, "STATUS job-42") == t;
    var prompt := Prompts.StatusPrompt("job-42");
    assert t.Ran? && t.prompt == prompt && t.outcome == run(prompt);
  }
}
