/** Start-up configuration: the two environment variables `main` reads and
    the model id the agent class falls back to. */
module Settings {

  /** The process environment, as `os.getenv` sees it. */
  type Env = map<string, string>

  const ServerUrlVar := "MCP_SERVER_URL"
  const ApiKeyVar := "API_KEY"

  const DefaultServerUrl := "http://localhost:3000/sse"
  const DefaultApiKey := "change-me-in-production"
  /** The constructor's default `model_id`; `main` never passes another. */
  const DefaultModelId := "gpt-4"

  datatype Config = Config(serverUrl: string, apiKey: string, modelId: string)

  /** `os.getenv(name, fallback)`: a set variable wins even when empty. */
  function GetEnv(env: Env, name: string, fallback: string): (r: string)
    ensures name in env ==> r == env[name]
    ensures name !in env ==> r == fallback
  {
    if name in env then env[name] else fallback
  }

  /** What `main` builds the agent from. A set variable is taken verbatim, an
      unset one falls back to its literal default, and the model id is the
      constructor's default whatever the environment holds. */
  function LoadConfig(env: Env): (c: Config)
    ensures ServerUrlVar in env ==> c.serverUrl == env[ServerUrlVar]
    ensures ServerUrlVar !in env ==> c.serverUrl == "http://localhost:3000/sse"
    ensures ApiKeyVar in env ==> c.apiKey == env[ApiKeyVar]
    ensures ApiKeyVar !in env ==> c.apiKey == "change-me-in-production"
    ensures c.modelId == "gpt-4"
  {
    Config(GetEnv(env, ServerUrlVar, DefaultServerUrl),
           GetEnv(env, ApiKeyVar, DefaultApiKey),
           DefaultModelId)
  }

  /** Only the two variables `main` reads can influence the configuration. */
  lemma LoadConfigReadsTwoVariables(e1: Env, e2: Env)
    requires forall v :: v in {ServerUrlVar, ApiKeyVar} ==>
               (v in e1 <==> v in e2) && (v in e1 ==> e1[v] == e2[v])
    ensures LoadConfig(e1) == LoadConfig(e2)
  {
    assert ServerUrlVar in {ServerUrlVar, ApiKeyVar};
    assert ApiKeyVar in {ServerUrlVar, ApiKeyVar};
  }

  /** With nothing set, the agent talks to the local server with the
      placeholder key and the default model. */
  lemma EmptyEnvDefaults()
    ensures LoadConfig(map[]) ==
              Config("http://localhost:3000/sse", "change-me-in-production", "gpt-4")
  {
  }
}
