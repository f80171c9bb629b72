/**
 * Process environment variables. A setting is read under its current name with a
 * legacy name as fallback.
 */
module EnvVars {
  import opened Wrappers

  type Env = map<string, string>

  /** `getEnv(primary, legacy)`: the primary variable when it is set, else the legacy one. */
  function GetEnv(env: Env, primary: string, legacy: string): (r: Option<string>)
    ensures r.Some? <==> primary in env || legacy in env
    ensures primary in env ==> r == Some(env[primary])
  {
    if primary in env then Some(env[primary])
    else if legacy in env then Some(env[legacy])
    else None
  }

  /** Writing the primary name decides every later read, whatever the legacy name holds. */
  lemma GetEnvAfterSet(env: Env, primary: string, legacy: string, value: string)
    ensures GetEnv(env[primary := value], primary, legacy) == Some(value)
  {
  }
}
