/** Application settings read from the environment, and their validation. */
module Config {
  import opened Wrappers

  datatype Settings = Settings(
    groqApiKey: string,
    neo4jUri: string,
    neo4jUsername: string,
    neo4jPassword: string,
    extractionModel: string,
    queryModel: string,
    maxExtractionTokens: nat,
    maxQueryTokens: nat)

  const DefaultUri := "bolt://localhost:7687"
  const DefaultUsername := "neo4j"
  const DefaultModel := "llama-3.3-70b-versatile"

  /** `os.getenv(key, default)`: a variable that is set wins, even when empty. */
  function GetEnv(env: map<string, string>, key: string, default: string): (v: string)
    ensures key in env ==> v == env[key]
    ensures key !in env ==> v == default
  {
    if key in env then env[key] else default
  }

  /** The class attributes of `Config`, evaluated against the environment `env`. */
  function Load(env: map<string, string>): Settings {
    Settings(
      GetEnv(env, "GROQ_API_KEY", ""),
      GetEnv(env, "NEO4J_URI", DefaultUri),
      GetEnv(env, "NEO4J_USERNAME", DefaultUsername),
      GetEnv(env, "NEO4J_PASSWORD", ""),
      GetEnv(env, "EXTRACTION_MODEL", DefaultModel),
      GetEnv(env, "QUERY_MODEL", DefaultModel),
      4000,
      2000)
  }

  /** Unset variables take their defaults; the token limits never depend on the environment. */
  lemma LoadDefaults(env: map<string, string>)
    ensures "NEO4J_URI" !in env ==> Load(env).neo4jUri == "bolt://localhost:7687"
    ensures "NEO4J_USERNAME" !in env ==> Load(env).neo4jUsername == "neo4j"
    ensures "EXTRACTION_MODEL" !in env ==> Load(env).extractionModel == "llama-3.3-70b-versatile"
    ensures "QUERY_MODEL" !in env ==> Load(env).queryModel == "llama-3.3-70b-versatile"
    ensures "GROQ_API_KEY" !in env ==> Load(env).groqApiKey == ""
    ensures "NEO4J_PASSWORD" !in env ==> Load(env).neo4jPassword == ""
    ensures Load(env).maxExtractionTokens == 4000 && Load(env).maxQueryTokens == 2000
  {
  }

  const MissingApiKey := "GROQ_API_KEY is required. Set it in .env file."
  const MissingPassword := "NEO4J_PASSWORD is required. Set it in .env file."

  /** `Config.validate`: the API key is checked first, then the password; raising is `Raised`. */
  function Validate(c: Settings): (r: Result<bool>)
    ensures r.Ok? <==> c.groqApiKey != "" && c.neo4jPassword != ""
    ensures r.Ok? ==> r.value
    ensures c.groqApiKey == "" ==> r == Raised(MissingApiKey)
    ensures c.groqApiKey != "" && c.neo4jPassword == "" ==> r == Raised(MissingPassword)
  {
    if c.groqApiKey == "" then Raised(MissingApiKey)
    else if c.neo4jPassword == "" then Raised(MissingPassword)
    else Ok(true)
  }

  /** Validation of loaded settings passes exactly when both secrets are set and non-empty. */
  lemma ValidateLoaded(env: map<string, string>)
    ensures Validate(Load(env)).Ok? <==>
      ("GROQ_API_KEY" in env && env["GROQ_API_KEY"] != "" &&
       "NEO4J_PASSWORD" in env && env["NEO4J_PASSWORD"] != "")
  {
  }
}
