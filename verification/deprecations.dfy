/**
 * Redirecting deprecated model names: an ordered list of rules, the first that matches
 * supplies the replacement, and the redirect is announced and written to the settings.
 */
module Deprecations {
  import opened Wrappers
  import opened Strings
  import opened EnvVars
  import UpdateEnv
  import GetModel

  /** A rule matches the names whose lower-cased form starts with `prefix`. */
  datatype Rule = Rule(prefix: string, replacement: string, reason: Option<string>)

  predicate Matches(rule: Rule, name: string) {
    StartsWith(ToLower(name), rule.prefix)
  }

  /** `DEPRECATION_RULES`: the gpt-4o family, dated and mini variants included, goes to gpt-5-nano. */
  const Gpt4oRule := Rule("gpt-4o", "gpt-5-nano", Some("OpenAI gpt-4o family is deprecated in this agent"))
  const DeprecationRules: seq<Rule> := [Gpt4oRule]

  /** The position of the first rule at or after `i` that matches `name`. */
  function FirstRule(rules: seq<Rule>, name: string, i: nat): (r: Option<nat>)
    requires i <= |rules|
    ensures r.Some? ==> i <= r.value < |rules| && Matches(rules[r.value], name)
    ensures r.Some? ==> forall j :: i <= j < r.value ==> !Matches(rules[j], name)
    ensures r.None? ==> forall j :: i <= j < |rules| ==> !Matches(rules[j], name)
    decreases |rules| - i
  {
    if i == |rules| then None
    else if Matches(rules[i], name) then Some(i)
    else FirstRule(rules, name, i + 1)
  }

  datatype Hit = Hit(replacement: string, rule: Rule)

  /** `getDeprecatedReplacement` over a rule list: nothing for a missing or empty name, else the first match. */
  function ReplacementIn(rules: seq<Rule>, name: Option<string>): (r: Option<Hit>)
    ensures name.None? || name == Some("") ==> r.None?
    ensures r.Some? ==> exists k :: (0 <= k < |rules| && r.value == Hit(rules[k].replacement, rules[k])
      && Matches(rules[k], name.value) && forall j :: 0 <= j < k ==> !Matches(rules[j], name.value))
    ensures r.None? && name.Some? && name.value != "" ==> forall j :: 0 <= j < |rules| ==> !Matches(rules[j], name.value)
  {
    if name.None? || name.value == "" then None
    else match FirstRule(rules, name.value, 0)
      case None => None
      case Some(k) => Some(Hit(rules[k].replacement, rules[k]))
  }

  /** `getDeprecatedReplacement`: exactly the gpt-4o family, in any letter case, is redirected to gpt-5-nano. */
  function GetDeprecatedReplacement(name: Option<string>): (r: Option<Hit>)
    ensures r.Some? <==> name.Some? && StartsWith(ToLower(name.value), Gpt4oRule.prefix)
    ensures r.Some? ==> r.value == Hit("gpt-5-nano", Gpt4oRule)
  {
    ReplacementIn(DeprecationRules, name)
  }

  /** The two settings a redirect may rewrite. */
  datatype EnvKey = ModelKey | CompactionModelKey

  function KeyName(k: EnvKey): string {
    match k
    case ModelKey => "HARPER_AGENT_MODEL"
    case CompactionModelKey => "HARPER_AGENT_COMPACTION_MODEL"
  }

  /** The warning printed for a redirect; a reason, when present and non-empty, is added at the end. */
  function WarningText(original: string, key: EnvKey, replacement: string, reason: Option<string>): string {
    var reasonSuffix := if reason.Some? && reason.value != "" then " Reason: " + reason.value + "." else "";
    "Warning: model \"" + original + "\" is deprecated and will be redirected to \"" + replacement + "\"."
      + " Your environment setting (" + KeyName(key) + ") has been updated." + reasonSuffix
  }

  /** What `warnAndPersistRedirect` leaves: the warning, the environment and the `.env` text. */
  datatype Persisted = Persisted(warning: string, env: Env, file: string)

  /** `warnAndPersistRedirect`: warn, then write the replacement to the setting (`updateEnv`). */
  function WarnAndPersistRedirect(original: string, key: EnvKey, replacement: string, reason: Option<string>,
                                  env: Env, file: Option<string>): (r: Persisted)
    ensures r.env == env[KeyName(key) := replacement]
    ensures r.file == UpdateEnv.UpdateContent(file.GetOr(""), KeyName(key), replacement)
  {
    var (env', file') := UpdateEnv.Update(env, file, KeyName(key), replacement);
    Persisted(WarningText(original, key, replacement, reason), env', file')
  }

  // ---- properties ----

  lemma LowerGpt4o()
    ensures ToLower("gpt-4o") == "gpt-4o"
  {
  }

  /** Every name that starts with `gpt-4o` in any letter case is redirected to gpt-5-nano. */
  lemma Gpt4oRedirected(name: string)
    requires StartsWith(ToLower(name), "gpt-4o")
    ensures GetDeprecatedReplacement(Some(name)) == Some(Hit("gpt-5-nano", Gpt4oRule))
  {
    assert name != "";
    assert Matches(DeprecationRules[0], name);
  }

  /** Every other name is left alone. */
  lemma OthersKept(name: string)
    requires !StartsWith(ToLower(name), "gpt-4o")
    ensures GetDeprecatedReplacement(Some(name)).None?
  {
    if name != "" {
      assert !Matches(DeprecationRules[0], name);
    }
  }

  /** A replacement matches no rule, so redirecting twice is redirecting once. */
  lemma RedirectIdempotent(name: Option<string>)
    requires GetDeprecatedReplacement(name).Some?
    ensures GetDeprecatedReplacement(Some(GetDeprecatedReplacement(name).value.replacement)).None?
  {
    var nano := "gpt-5-nano";
    assert nano[4] == '5';
    assert ToLower(nano)[4] == '5';
    OthersKept(nano);
  }

  /** A redirect never changes the provider: both names are OpenAI names. */
  lemma RedirectKeepsProvider(name: string)
    requires GetDeprecatedReplacement(Some(name)).Some?
    ensures GetModel.GetProvider(GetDeprecatedReplacement(Some(name)).value.replacement) == GetModel.GetProvider(name)
    ensures GetModel.GetProvider(name) == GetModel.OpenAI
  {
    assert Matches(Gpt4oRule, name);
    assert ToLower(name)[0] == 'g' && ToLower(name)[1] == 'p';
    assert name[0] != 'c' && name[0] != 'o' && name[1] != 'e';
    var nano := "gpt-5-nano";
    assert nano[0] == 'g' && nano[1] == 'p';
  }

  /** The first matching rule decides, whatever the later rules say. */
  lemma FirstMatchWins(rules: seq<Rule>, name: string, k: nat)
    requires name != "" && k < |rules| && Matches(rules[k], name)
    requires forall j :: 0 <= j < k ==> !Matches(rules[j], name)
    ensures ReplacementIn(rules, Some(name)) == Some(Hit(rules[k].replacement, rules[k]))
  {
    var f := FirstRule(rules, name, 0);
    assert f.Some?;
  }
}
