/** The `CSVStrandsAgent` class: its fields, `initialize`, and the command
    methods. A command method either raises (modelled as `Failure` with the
    exception's message) or yields the prompt it would hand to the model;
    the model's run itself is outside this module. */
module CsvAgent {

  import opened Wrappers
  import Prompts

  /** One tool the server advertises. */
  datatype Tool = Tool(name: string, description: string)

  /** The framework's agent object, as far as this class configures it
      (its fixed instruction text is not part of this model). */
  datatype AgentHandle = AgentHandle(name: string, modelId: string, tools: seq<Tool>)

  /** The instance fields; `agent` is `None` until `initialize` builds one. */
  datatype AgentState = AgentState(serverUrl: string, apiKey: string, modelId: string,
                                   agent: Option<AgentHandle>)

  /** What `process_csv` does instead of raising: hand a prompt to the model,
      or answer at once without it. */
  datatype Request = Prompt(text: string) | Reply(text: string)

  const AgentName := "CSV Processor Agent"
  const NotInitialized := "Agent not initialized. Call initialize() first."

  /** The constructor: configuration stored, no agent yet. */
  function NewAgent(serverUrl: string, apiKey: string, modelId: string): (st: AgentState)
    ensures st.agent.None?
    ensures st.serverUrl == serverUrl && st.apiKey == apiKey && st.modelId == modelId
  {
    AgentState(serverUrl, apiKey, modelId, None)
  }

  /** `initialize`, given what tool discovery produced. A discovery error
      propagates; an empty tool list returns early and leaves the instance
      exactly as it was; otherwise the agent is built from the instance's
      model id and the tools in the order given.
      Nothing but `agent` ever changes. */
  function Initialize(st: AgentState, discovered: Result<seq<Tool>, string>)
    : (r: Result<AgentState, string>)
    ensures discovered.Failure? <==> r.Failure?
    ensures discovered.Failure? ==> r.error == discovered.error
    ensures discovered.Success? && discovered.value == [] ==> r == Success(st)
    ensures discovered.Success? && discovered.value != [] ==>
              r.Success? && r.value.agent.Some?
              && r.value.agent.value.tools == discovered.value
              && r.value.agent.value.modelId == st.modelId
              && r.value.agent.value.name == "CSV Processor Agent"
    ensures r.Success? ==> r.value.(agent := st.agent) == st
  {
    match discovered
    case Failure(e) => Failure(e)
    case Success(tools) =>
      if tools == [] then Success(st)
      else Success(st.(agent := Some(AgentHandle(AgentName, st.modelId, tools))))
  }

  /** `process_csv`. With no agent it raises before anything else; a missing
      file (`fileExists` is the file-system check) is answered directly;
      otherwise the prompt names the file and, if given, the table. */
  function ProcessCsv(st: AgentState, filePath: string, table: Option<string>,
                      fileExists: bool): (r: Result<Request, string>)
    ensures r.Failure? <==> st.agent.None?
    ensures r.Failure? ==> r.error == NotInitialized
    ensures r.Success? && !fileExists ==> r.value == Reply("❌ File not found: " + filePath)
    ensures r.Success? && fileExists ==>
              r.value == Prompt(Prompts.ProcessCsvPrompt(filePath, table))
  {
    if st.agent.None? then Failure(NotInitialized)
    else if !fileExists then Success(Reply("❌ File not found: " + filePath))
    else Success(Prompt(Prompts.ProcessCsvPrompt(filePath, table)))
  }

  /** `query_table`: raises without an agent, else the query prompt. */
  function QueryTable(st: AgentState, table: string, limit: int): (r: Result<string, string>)
    ensures r.Failure? <==> st.agent.None?
    ensures r.Failure? ==> r.error == NotInitialized
    ensures r.Success? ==> r.value == Prompts.QueryPrompt(table, limit)
  {
    if st.agent.None? then Failure(NotInitialized) else Success(Prompts.QueryPrompt(table, limit))
  }

  /** `get_job_status`: raises without an agent, else the status prompt. */
  function GetJobStatus(st: AgentState, jobId: string): (r: Result<string, string>)
    ensures r.Failure? <==> st.agent.None?
    ensures r.Failure? ==> r.error == NotInitialized
    ensures r.Success? ==> r.value == Prompts.StatusPrompt(jobId)
  {
    if st.agent.None? then Failure(NotInitialized) else Success(Prompts.StatusPrompt(jobId))
  }

  /** `list_jobs`: raises without an agent, else the fixed listing prompt. */
  function ListJobs(st: AgentState): (r: Result<string, string>)
    ensures r.Failure? <==> st.agent.None?
    ensures r.Failure? ==> r.error == NotInitialized
    ensures r.Success? ==> r.value == "List all active CSV processing jobs and their current status."
  {
    if st.agent.None? then Failure(NotInitialized) else Success(Prompts.ListPrompt)
  }

  /** `analyze_data`: raises without an agent, else the analysis prompt. */
  function AnalyzeData(st: AgentState, table: string): (r: Result<string, string>)
    ensures r.Failure? <==> st.agent.None?
    ensures r.Failure? ==> r.error == NotInitialized
    ensures r.Success? ==> r.value == Prompts.AnalyzePrompt(table)
  {
    if st.agent.None? then Failure(NotInitialized) else Success(Prompts.AnalyzePrompt(table))
  }

  /** `cleanup_job`: raises without an agent, else the clean-up prompt. */
  function CleanupJob(st: AgentState, jobId: string): (r: Result<string, string>)
    ensures r.Failure? <==> st.agent.None?
    ensures r.Failure? ==> r.error == NotInitialized
    ensures r.Success? ==> r.value == Prompts.CleanupPrompt(jobId)
  {
    if st.agent.None? then Failure(NotInitialized) else Success(Prompts.CleanupPrompt(jobId))
  }

  /** A freshly constructed instance refuses every command until
      `initialize` has found at least one tool. */
  lemma FreshAgentRefusesCommands(url: string, key: string, model: string,
                                  discovered: Result<seq<Tool>, string>,
                                  id: string, table: string, path: string, fileExists: bool)
    requires discovered.Failure? || discovered.value == []
    ensures var st := NewAgent(url, key, model);
            var r := Initialize(st, discovered);
            r.Success? ==> var st' := r.value;
              && ListJobs(st') == Failure(NotInitialized)
              && GetJobStatus(st', id) == Failure(NotInitialized)
              && QueryTable(st', table, Prompts.DefaultLimit) == Failure(NotInitialized)
              && AnalyzeData(st', table) == Failure(NotInitialized)
              && CleanupJob(st', id) == Failure(NotInitialized)
              && ProcessCsv(st', path, None, fileExists) == Failure(NotInitialized)
  {
  }
}
