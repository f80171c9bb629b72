/** The environment variable each provider is configured through. */
module ProviderEnv {
  import opened Wrappers
  import opened GetModel
  import AgentManager

  /** `getEnvVarForProvider`: an API key for the hosted providers, the base URL for Ollama. */
  function EnvVarForProvider(p: Provider): (r: string)
    ensures r != ""
    ensures p == Ollama <==> r == "OLLAMA_BASE_URL"
  {
    match p
    case Anthropic => "ANTHROPIC_API_KEY"
    case Google => "GOOGLE_GENERATIVE_AI_API_KEY"
    case OpenAI => "OPENAI_API_KEY"
    case Ollama => "OLLAMA_BASE_URL"
  }

  /** The provider's name as the configuration spells it. */
  function ProviderName(p: Provider): string {
    match p
    case Anthropic => "Anthropic"
    case Google => "Google"
    case OpenAI => "OpenAI"
    case Ollama => "Ollama"
  }

  // ---- properties ----

  /** No two providers share a variable. */
  lemma EnvVarInjective(p: Provider, q: Provider)
    requires EnvVarForProvider(p) == EnvVarForProvider(q)
    ensures p == q
  {
    assert EnvVarForProvider(p)[0] == EnvVarForProvider(q)[0];
    assert EnvVarForProvider(p)[1] == EnvVarForProvider(q)[1];
  }

  /**
   * The agent manager stores a supplied API key under the same variable for the three
   * hosted providers, and under none for Ollama.
   */
  lemma ApiKeyVarAgrees(p: Provider)
    ensures p != Ollama ==> AgentManager.ApiKeyVar(ProviderName(p)) == Some(EnvVarForProvider(p))
    ensures p == Ollama ==> AgentManager.ApiKeyVar(ProviderName(p)).None?
  {
  }
}
