/**
 * Resolving the run configuration from the command line and the environment: the flag
 * loop, the environment fallbacks and overrides, the default model and compaction model,
 * the tracing switch, and the deprecation redirect with its write to the `.env` file.
 */
module ParseArgs {
  import opened Wrappers
  import opened Strings
  import opened EnvVars
  import GetModel
  import Cli
  import Deprecations
  import UpdateEnv
  import ProviderEnv
  import EnsureApiKey

  // ---- quotes ----

  predicate IsQuote(c: char) {
    c == '"' || c == '\''
  }

  /** Starts and ends with the same quote character (a lone quote counts). */
  predicate Quoted(s: string) {
    |s| > 0 && IsQuote(s[0]) && s[|s| - 1] == s[0]
  }

  /** `stripQuotes`: one surrounding pair of matching quotes is removed; a lone quote becomes empty. */
  function StripQuotes(s: string): (r: string)
    ensures Quoted(s) && |s| >= 2 ==> [s[0]] + r + [s[0]] == s
    ensures Quoted(s) && |s| == 1 ==> r == ""
    ensures !Quoted(s) ==> r == s
  {
    if Quoted(s) then (if |s| == 1 then "" else s[1..|s| - 1]) else s
  }

  // ---- the flag table ----

  /** The settings a flag can carry a value for, in the order the loop tries them. */
  datatype Key = ModelKey | CompactionModelKey | SessionPathKey | MaxTurnsKey | MaxCostKey
               | RateLimitThresholdKey | PromptKey

  const FlagKeys: seq<Key> :=
    [ModelKey, CompactionModelKey, SessionPathKey, MaxTurnsKey, MaxCostKey, RateLimitThresholdKey, PromptKey]

  /** The spellings accepted for each key, in the order they are tried. */
  function Aliases(k: Key): seq<string> {
    match k
    case ModelKey => ["--model", "-m", "model"]
    case CompactionModelKey => ["--compaction-model", "-c", "compaction-model"]
    case SessionPathKey => ["--session", "-s", "session"]
    case MaxTurnsKey => ["--max-turns"]
    case MaxCostKey => ["--max-cost"]
    case RateLimitThresholdKey => ["--rate-limit-threshold"]
    case PromptKey => ["--prompt", "-p"]
  }

  /** How an argument matched a spelling: on its own (value in the next argument) or as `spelling=value`. */
  datatype Form = Exact | Inline(text: string)

  /** Matching one spelling: equality first, then the `spelling=` prefix. */
  function MatchPrefix(arg: string, prefix: string): (r: Option<Form>)
    ensures r == Some(Exact) <==> arg == prefix
    ensures r.Some? && r.value.Inline? ==> arg == prefix + "=" + r.value.text
    ensures r.None? ==> arg != prefix && !StartsWith(arg, prefix + "=")
  {
    if arg == prefix then Some(Exact)
    else if StartsWith(arg, prefix + "=") then
      assert arg == arg[..|prefix| + 1] + arg[|prefix| + 1..];
      Some(Inline(arg[|prefix| + 1..]))
    else None
  }

  /** The position of the first spelling from `i` on that matches the argument. */
  function FirstSpelling(arg: string, prefixes: seq<string>, i: nat): (r: Option<nat>)
    requires i <= |prefixes|
    ensures r.Some? ==> i <= r.value < |prefixes| && MatchPrefix(arg, prefixes[r.value]).Some?
    ensures r.Some? ==> forall j :: i <= j < r.value ==> MatchPrefix(arg, prefixes[j]).None?
    ensures r.None? ==> forall j :: i <= j < |prefixes| ==> MatchPrefix(arg, prefixes[j]).None?
    decreases |prefixes| - i
  {
    if i == |prefixes| then None
    else if MatchPrefix(arg, prefixes[i]).Some? then Some(i)
    else FirstSpelling(arg, prefixes, i + 1)
  }

  /** The first spelling of a key that matches. */
  function MatchAliases(arg: string, prefixes: seq<string>): Option<Form> {
    match FirstSpelling(arg, prefixes, 0)
    case None => None
    case Some(j) => MatchPrefix(arg, prefixes[j])
  }

  /** The spellings are tried in order: the first one that matches decides. */
  lemma MatchAliasesIsFirst(arg: string, prefixes: seq<string>)
    ensures var r := MatchAliases(arg, prefixes);
      r.None? <==> forall j :: 0 <= j < |prefixes| ==> MatchPrefix(arg, prefixes[j]).None?
    ensures var r := MatchAliases(arg, prefixes);
      r.Some? ==> exists j :: (0 <= j < |prefixes| && MatchPrefix(arg, prefixes[j]) == r
        && forall j' :: 0 <= j' < j ==> MatchPrefix(arg, prefixes[j']).None?)
  {
  }

  /** How a key's spellings match the argument, if one does. */
  function MatchKey(arg: string, k: Key): Option<Form> {
    MatchAliases(arg, Aliases(k))
  }

  /** The position of the first present entry from `i` on. */
  function FirstPresent<T>(xs: seq<Option<T>>, i: nat): (r: Option<nat>)
    requires i <= |xs|
    ensures r.Some? ==> i <= r.value < |xs| && xs[r.value].Some?
    ensures r.Some? ==> forall j :: i <= j < r.value ==> xs[j].None?
    ensures r.None? ==> forall j :: i <= j < |xs| ==> xs[j].None?
    decreases |xs| - i
  {
    if i == |xs| then None
    else if xs[i].Some? then Some(i)
    else FirstPresent(xs, i + 1)
  }

  /** How each key, in order, matches the argument. */
  function KeyMatches(arg: string, keys: seq<Key>): (r: seq<Option<Form>>)
    ensures |r| == |keys| && forall j :: 0 <= j < |keys| ==> r[j] == MatchKey(arg, keys[j])
  {
    seq(|keys|, j requires 0 <= j < |keys| => MatchKey(arg, keys[j]))
  }

  /** The first key, in table order, one of whose spellings matches the argument. */
  function MatchFlag(arg: string, keys: seq<Key>): Option<(Key, Form)> {
    var ms := KeyMatches(arg, keys);
    match FirstPresent(ms, 0)
    case None => None
    case Some(j) => Some((keys[j], ms[j].value))
  }

  /** The keys are tried in table order: the first one with a matching spelling claims the argument. */
  lemma MatchFlagIsFirst(arg: string, keys: seq<Key>)
    ensures var r := MatchFlag(arg, keys);
      r.None? <==> forall j :: 0 <= j < |keys| ==> MatchKey(arg, keys[j]).None?
    ensures var r := MatchFlag(arg, keys);
      r.Some? ==> exists j :: (0 <= j < |keys| && keys[j] == r.value.0
        && MatchKey(arg, keys[j]) == Some(r.value.1)
        && forall j' :: 0 <= j' < j ==> MatchKey(arg, keys[j']).None?)
  {
  }

  // ---- the configuration record ----

  /**
   * The part of the tracked state that argument parsing writes. The three numeric
   * settings hold the text handed to `parseFloat`; `monitorRateLimits` is `None` until
   * something switches monitoring off.
   */
  datatype Config = Config(
    model: Option<string>,
    compactionModel: Option<string>,
    sessionPath: Option<string>,
    prompt: Option<string>,
    maxTurns: Option<string>,
    maxCost: Option<string>,
    rateLimitThreshold: Option<string>,
    useFlexTier: bool,
    monitorRateLimits: Option<bool>,
    autonomous: bool,
    autoApproveCodeInterpreter: bool,
    autoApprovePatches: bool,
    autoApproveShell: bool)

  /** The tracked state of a fresh process: nothing chosen yet. */
  const Initial := Config(None, None, None, None, None, None, None, false, None, false, false, false, false)

  /** The setting a key writes. */
  function Field(c: Config, k: Key): Option<string> {
    match k
    case ModelKey => c.model
    case CompactionModelKey => c.compactionModel
    case SessionPathKey => c.sessionPath
    case MaxTurnsKey => c.maxTurns
    case MaxCostKey => c.maxCost
    case RateLimitThresholdKey => c.rateLimitThreshold
    case PromptKey => c.prompt
  }

  /** The on/off settings are the same in both records. */
  predicate SameSwitches(a: Config, b: Config) {
    a.useFlexTier == b.useFlexTier && a.monitorRateLimits == b.monitorRateLimits && a.autonomous == b.autonomous
    && a.autoApproveCodeInterpreter == b.autoApproveCodeInterpreter
    && a.autoApprovePatches == b.autoApprovePatches && a.autoApproveShell == b.autoApproveShell
  }

  /** `trackedState[key] = val`: one setting written, nothing else touched. */
  function SetField(c: Config, k: Key, v: string): (r: Config)
    ensures Field(r, k) == Some(v)
    ensures forall k' :: k' != k ==> Field(r, k') == Field(c, k')
    ensures SameSwitches(r, c)
  {
    match k
    case ModelKey => c.(model := Some(v))
    case CompactionModelKey => c.(compactionModel := Some(v))
    case SessionPathKey => c.(sessionPath := Some(v))
    case MaxTurnsKey => c.(maxTurns := Some(v))
    case MaxCostKey => c.(maxCost := Some(v))
    case RateLimitThresholdKey => c.(rateLimitThreshold := Some(v))
    case PromptKey => c.(prompt := Some(v))
  }

  const FlexTierFlag := "--flex-tier"
  const NoMonitorFlag := "--no-monitor-rate-limits"
  const AutonomousFlag := "--autonomous"
  const AutonomousShortFlag := "-a"

  /** An argument that no key claimed: one of the on/off flags, or ignored. */
  function SwitchFlag(arg: string, c: Config): (r: Config)
    ensures forall k :: Field(r, k) == Field(c, k)
    ensures arg == FlexTierFlag ==> r == c.(useFlexTier := true)
    ensures arg == NoMonitorFlag ==> r == c.(monitorRateLimits := Some(false))
    ensures arg == AutonomousFlag || arg == AutonomousShortFlag ==> r == c.(autonomous := true)
    ensures arg !in {FlexTierFlag, NoMonitorFlag, AutonomousFlag, AutonomousShortFlag} ==> r == c
  {
    if arg == FlexTierFlag then c.(useFlexTier := true)
    else if arg == NoMonitorFlag then c.(monitorRateLimits := Some(false))
    else if arg == AutonomousFlag || arg == AutonomousShortFlag then c.(autonomous := true)
    else c
  }

  /**
   * The flag loop. A spelling on its own takes the next argument as its value when that
   * argument is non-empty (and skips it); otherwise it sets nothing. `spelling=value`
   * takes the text after `=`. Values lose one pair of surrounding quotes.
   */
  function ApplyFlags(args: seq<string>, c: Config): Config
    decreases |args|
  {
    if |args| == 0 then c
    else match MatchFlag(args[0], FlagKeys)
      case Some((k, Exact)) =>
        if |args| > 1 && args[1] != "" then ApplyFlags(args[2..], SetField(c, k, StripQuotes(args[1])))
        else ApplyFlags(args[1..], c)
      case Some((k, Inline(text))) => ApplyFlags(args[1..], SetField(c, k, StripQuotes(text)))
      case None => ApplyFlags(args[1..], SwitchFlag(args[0], c))
  }

  /** The flag loop only extends a configuration. */
  lemma {:induction false} ApplyFlagsExtends(args: seq<string>, c: Config)
    ensures Extends(c, ApplyFlags(args, c))
    decreases |args|
  {
    if |args| > 0 {
      match MatchFlag(args[0], FlagKeys)
      case Some((k, Exact)) =>
        if |args| > 1 && args[1] != "" {
          var c' := SetField(c, k, StripQuotes(args[1]));
          SetFieldExtends(c, k, StripQuotes(args[1]));
          ApplyFlagsExtends(args[2..], c');
          ExtendsTrans(c, c', ApplyFlags(args[2..], c'));
        } else {
          ApplyFlagsExtends(args[1..], c);
        }
      case Some((k, Inline(text))) =>
        var c' := SetField(c, k, StripQuotes(text));
        SetFieldExtends(c, k, StripQuotes(text));
        ApplyFlagsExtends(args[1..], c');
        ExtendsTrans(c, c', ApplyFlags(args[1..], c'));
      case None =>
        var c' := SwitchFlag(args[0], c);
        SwitchFlagExtends(args[0], c);
        ApplyFlagsExtends(args[1..], c');
        ExtendsTrans(c, c', ApplyFlags(args[1..], c'));
    }
  }

  /**
   * What the flag loop can do to a configuration: a given setting stays given, switches
   * only turn on, monitoring can only be switched off, and auto-approval is left alone.
   */
  predicate Extends(c: Config, r: Config) {
    && (forall k :: Field(c, k).Some? ==> Field(r, k).Some?)
    && (c.useFlexTier ==> r.useFlexTier)
    && (c.autonomous ==> r.autonomous)
    && (r.monitorRateLimits == c.monitorRateLimits || r.monitorRateLimits == Some(false))
    && r.autoApproveCodeInterpreter == c.autoApproveCodeInterpreter
    && r.autoApprovePatches == c.autoApprovePatches && r.autoApproveShell == c.autoApproveShell
  }

  lemma SetFieldExtends(c: Config, k: Key, v: string)
    ensures Extends(c, SetField(c, k, v))
  {
  }

  lemma SwitchFlagExtends(arg: string, c: Config)
    ensures Extends(c, SwitchFlag(arg, c))
  {
  }

  lemma ExtendsTrans(a: Config, b: Config, c: Config)
    requires Extends(a, b) && Extends(b, c)
    ensures Extends(a, c)
  {
  }

  // ---- properties of the flag loop ----

  /** The key a spelling belongs to. */
  function Owner(a: string): Option<Key> {
    if a in Aliases(ModelKey) then Some(ModelKey)
    else if a in Aliases(CompactionModelKey) then Some(CompactionModelKey)
    else if a in Aliases(SessionPathKey) then Some(SessionPathKey)
    else if a in Aliases(MaxTurnsKey) then Some(MaxTurnsKey)
    else if a in Aliases(MaxCostKey) then Some(MaxCostKey)
    else if a in Aliases(RateLimitThresholdKey) then Some(RateLimitThresholdKey)
    else if a in Aliases(PromptKey) then Some(PromptKey)
    else None
  }

  /** Every spelling is non-empty, has no `=`, and belongs to its own key only. */
  lemma SpellingsClean(k: Key, a: string)
    requires a in Aliases(k)
    ensures a != "" && UpdateEnv.NoEquals(a)
    ensures Owner(a) == Some(k)
  {
    match k
    case ModelKey => ModelSpellingsClean(a);
    case CompactionModelKey => CompactionModelSpellingsClean(a);
    case SessionPathKey => SessionPathSpellingsClean(a);
    case MaxTurnsKey => MaxTurnsSpellingsClean(a);
    case MaxCostKey => MaxCostSpellingsClean(a);
    case RateLimitThresholdKey => RateLimitThresholdSpellingsClean(a);
    case PromptKey => PromptSpellingsClean(a);
  }

  lemma ModelSpellingsClean(a: string)
    requires a in Aliases(ModelKey)
    ensures a != "" && UpdateEnv.NoEquals(a)
    ensures Owner(a) == Some(ModelKey)
  {
  }

  lemma CompactionModelSpellingsClean(a: string)
    requires a in Aliases(CompactionModelKey)
    ensures a != "" && UpdateEnv.NoEquals(a)
    ensures Owner(a) == Some(CompactionModelKey)
  {
    assert a == "-c" ==> a[1] == 'c';
  }

  lemma SessionPathSpellingsClean(a: string)
    requires a in Aliases(SessionPathKey)
    ensures a != "" && UpdateEnv.NoEquals(a)
    ensures Owner(a) == Some(SessionPathKey)
  {
    assert a == "-s" ==> a[1] == 's';
    assert a == "session" ==> a[0] == 's';
  }

  lemma MaxTurnsSpellingsClean(a: string)
    requires a in Aliases(MaxTurnsKey)
    ensures a != "" && UpdateEnv.NoEquals(a)
    ensures Owner(a) == Some(MaxTurnsKey)
  {
  }

  lemma MaxCostSpellingsClean(a: string)
    requires a in Aliases(MaxCostKey)
    ensures a != "" && UpdateEnv.NoEquals(a)
    ensures Owner(a) == Some(MaxCostKey)
  {
  }

  lemma RateLimitThresholdSpellingsClean(a: string)
    requires a in Aliases(RateLimitThresholdKey)
    ensures a != "" && UpdateEnv.NoEquals(a)
    ensures Owner(a) == Some(RateLimitThresholdKey)
  {
  }

  lemma PromptSpellingsClean(a: string)
    requires a in Aliases(PromptKey)
    ensures a != "" && UpdateEnv.NoEquals(a)
    ensures Owner(a) == Some(PromptKey)
  {
    assert a == "-p" ==> a[1] == 'p';
  }

  /** A spelling without `=` matches an argument without `=` only by equality. */
  lemma PlainArgument(arg: string, p: string)
    requires UpdateEnv.NoEquals(arg)
    ensures MatchPrefix(arg, p) == (if arg == p then Some(Exact) else None)
  {
    if |p| + 1 <= |arg| {
      assert arg[|p|] != '=' && (p + "=")[|p|] == '=';
    }
  }

  /** `a=v` matches the spelling `a` inline with value `v`, and no other `=`-free spelling. */
  lemma InlineArgument(a: string, v: string, p: string)
    requires UpdateEnv.NoEquals(a) && UpdateEnv.NoEquals(p)
    ensures MatchPrefix(a + "=" + v, p) == (if p == a then Some(Inline(v)) else None)
  {
    var arg := a + "=" + v;
    assert arg[|a|] == '=';
    if |p| > |a| {
      assert p[|a|] != '=';
    }
    assert StartsWith(arg, a + "=");
    if p != a {
      UpdateEnv.KeysDisagree(arg, p, a, 0);
    } else {
      assert arg[|a| + 1..] == v;
    }
  }

  /** How the spellings of one key match an argument without `=`. */
  lemma PlainMatchKey(arg: string, k: Key)
    requires UpdateEnv.NoEquals(arg)
    ensures arg in Aliases(k) ==> MatchKey(arg, k) == Some(Exact)
    ensures arg !in Aliases(k) ==> MatchKey(arg, k).None?
  {
    var ps := Aliases(k);
    forall j | 0 <= j < |ps| ensures MatchPrefix(arg, ps[j]) == (if arg == ps[j] then Some(Exact) else None) {
      PlainArgument(arg, ps[j]);
    }
  }

  /** How the spellings of one key match `a=v`. */
  lemma InlineMatchKey(a: string, v: string, k: Key)
    requires UpdateEnv.NoEquals(a)
    ensures a in Aliases(k) ==> MatchKey(a + "=" + v, k) == Some(Inline(v))
    ensures a !in Aliases(k) ==> MatchKey(a + "=" + v, k).None?
  {
    var ps := Aliases(k);
    forall j | 0 <= j < |ps| ensures MatchPrefix(a + "=" + v, ps[j]) == (if ps[j] == a then Some(Inline(v)) else None) {
      SpellingsClean(k, ps[j]);
      InlineArgument(a, v, ps[j]);
    }
  }

  /** When exactly one key of the table claims the argument, the loop uses that key. */
  lemma OnlyClaimant(arg: string, k: Key, f: Form)
    requires MatchKey(arg, k) == Some(f)
    requires forall k' :: k' != k ==> MatchKey(arg, k').None?
    ensures MatchFlag(arg, FlagKeys) == Some((k, f))
  {
    assert k in FlagKeys;
    var r := MatchFlag(arg, FlagKeys);
    var j :| 0 <= j < |FlagKeys| && FlagKeys[j] == r.value.0 && MatchKey(arg, FlagKeys[j]) == Some(r.value.1);
  }

  /** A spelling of `k` on its own is claimed by `k`, whatever comes earlier in the table. */
  lemma SpellingClaimed(k: Key, a: string)
    requires a in Aliases(k)
    ensures MatchFlag(a, FlagKeys) == Some((k, Exact))
  {
    SpellingsClean(k, a);
    forall k' | k' != k ensures MatchKey(a, k').None? {
      PlainMatchKey(a, k');
      if a in Aliases(k') {
        SpellingsClean(k', a);
      }
    }
    PlainMatchKey(a, k);
    OnlyClaimant(a, k, Exact);
  }

  /** `a=v` for a spelling `a` of `k` is claimed by `k` with value `v`. */
  lemma InlineClaimed(k: Key, a: string, v: string)
    requires a in Aliases(k)
    ensures MatchFlag(a + "=" + v, FlagKeys) == Some((k, Inline(v)))
  {
    SpellingsClean(k, a);
    forall k' | k' != k ensures MatchKey(a + "=" + v, k').None? {
      InlineMatchKey(a, v, k');
      if a in Aliases(k') {
        SpellingsClean(k', a);
      }
    }
    InlineMatchKey(a, v, k);
    OnlyClaimant(a + "=" + v, k, Inline(v));
  }

  /** An argument no spelling claims. */
  lemma Unclaimed(arg: string)
    requires UpdateEnv.NoEquals(arg)
    requires forall k :: arg !in Aliases(k)
    ensures MatchFlag(arg, FlagKeys).None?
  {
    forall k | true ensures MatchKey(arg, k).None? {
      PlainMatchKey(arg, k);
    }
    forall j | 0 <= j < |FlagKeys| ensures MatchKey(arg, FlagKeys[j]).None? {
    }
  }

  /** An argument a key claims on its own, then a non-empty value: the key is set to the value. */
  lemma ExactTakesNext(k: Key, a: string, v: string, rest: seq<string>, c: Config)
    requires MatchFlag(a, FlagKeys) == Some((k, Exact)) && v != ""
    ensures ApplyFlags([a, v] + rest, c) == ApplyFlags(rest, SetField(c, k, StripQuotes(v)))
  {
    var args := [a, v] + rest;
    assert args[0] == a && args[1] == v && args[2..] == rest;
  }

  /** `--model v` (or any spelling of a key, then a non-empty value) sets the key to `v` without quotes. */
  lemma SpellingTakesNextValue(k: Key, a: string, v: string, rest: seq<string>, c: Config)
    requires a in Aliases(k) && v != ""
    ensures ApplyFlags([a, v] + rest, c) == ApplyFlags(rest, SetField(c, k, StripQuotes(v)))
  {
    SpellingClaimed(k, a);
    ExactTakesNext(k, a, v, rest, c);
  }

  /** The empty argument matches nothing. */
  lemma EmptyUnclaimed()
    ensures MatchFlag("", FlagKeys).None?
  {
    forall k | true ensures "" !in Aliases(k) {
    }
    Unclaimed("");
  }

  /** An argument a key claims on its own, then the empty argument: nothing is set. */
  lemma ExactBeforeEmpty(k: Key, a: string, rest: seq<string>, c: Config)
    requires MatchFlag(a, FlagKeys) == Some((k, Exact)) && MatchFlag("", FlagKeys).None?
    ensures ApplyFlags([a, ""] + rest, c) == ApplyFlags(rest, c)
  {
    var args := [a, ""] + rest;
    assert args[0] == a && args[1] == "";
    assert args[1..] == [""] + rest;
    assert ApplyFlags(args, c) == ApplyFlags([""] + rest, c);
    EmptySkipped(rest, c);
  }

  /** A spelling followed by an empty argument sets nothing; the empty argument is then skipped. */
  lemma SpellingBeforeEmpty(k: Key, a: string, rest: seq<string>, c: Config)
    requires a in Aliases(k)
    ensures ApplyFlags([a, ""] + rest, c) == ApplyFlags(rest, c)
  {
    SpellingClaimed(k, a);
    EmptyUnclaimed();
    ExactBeforeEmpty(k, a, rest, c);
  }

  lemma EmptySkipped(rest: seq<string>, c: Config)
    ensures ApplyFlags([""] + rest, c) == ApplyFlags(rest, c)
  {
    EmptyUnclaimed();
    assert ([""] + rest)[0] == "";
    assert ([""] + rest)[1..] == rest;
    assert SwitchFlag("", c) == c;
  }

  /** A spelling as the last argument sets nothing. */
  lemma SpellingAtEnd(k: Key, a: string, c: Config)
    requires a in Aliases(k)
    ensures ApplyFlags([a], c) == c
  {
    SpellingClaimed(k, a);
    assert [a][1..] == [];
  }

  /** `--model=v` sets the key to `v` without quotes. */
  lemma InlineTakesValue(k: Key, a: string, v: string, rest: seq<string>, c: Config)
    requires a in Aliases(k)
    ensures ApplyFlags([a + "=" + v] + rest, c) == ApplyFlags(rest, SetField(c, k, StripQuotes(v)))
  {
    InlineClaimed(k, a, v);
    assert ([a + "=" + v] + rest)[1..] == rest;
  }

  /** The on/off flags set their switch and nothing else; any other unclaimed argument is skipped. */
  lemma SwitchesApplied(arg: string, rest: seq<string>, c: Config)
    requires arg in {FlexTierFlag, NoMonitorFlag, AutonomousFlag, AutonomousShortFlag}
    ensures ApplyFlags([arg] + rest, c) == ApplyFlags(rest, SwitchFlag(arg, c))
  {
    Unclaimed(arg);
    assert ([arg] + rest)[1..] == rest;
  }

  // ---- the environment ----

  const ModelVar := "HARPER_AGENT_MODEL"
  const CompactionModelVar := "HARPER_AGENT_COMPACTION_MODEL"
  const SessionVar := "HARPER_AGENT_SESSION"
  const MaxTurnsVar := "HARPER_AGENT_MAX_TURNS"
  const MaxCostVar := "HARPER_AGENT_MAX_COST"
  const RateLimitThresholdVar := "HARPER_AGENT_RATE_LIMIT_THRESHOLD"
  const MonitorVar := "HARPER_AGENT_MONITOR_RATE_LIMITS"
  const FlexTierVar := "HARPER_AGENT_FLEX_TIER"
  const AutoApproveCodeInterpreterVar := "HARPER_AGENT_AUTO_APPROVE_CODE_INTERPRETER"
  const AutoApprovePatchesVar := "HARPER_AGENT_AUTO_APPROVE_PATCHES"
  const AutoApproveShellVar := "HARPER_AGENT_AUTO_APPROVE_SHELL"
  const AutonomousVar := "HARPER_AGENT_AUTONOMOUS"
  const AnthropicKeyVar := "ANTHROPIC_API_KEY"
  const GoogleKeyVar := "GOOGLE_GENERATIVE_AI_API_KEY"
  const OllamaUrlVar := "OLLAMA_BASE_URL"
  const TracingVar := "OPENAI_AGENTS_DISABLE_TRACING"

  /** `process.env[name]`, which may be undefined. */
  function Lookup(env: Env, name: string): Option<string> {
    if name in env then Some(env[name]) else None
  }

  /** The variable is set to a non-empty value. */
  predicate Truthy(env: Env, name: string) {
    name in env && env[name] != ""
  }

  /** A nullable setting that JavaScript treats as false: missing or empty. */
  predicate Falsy(v: Option<string>) {
    v.None? || v == Some("")
  }

  /** `if (!current && process.env[name]) current = process.env[name]`. */
  function FillFromEnv(current: Option<string>, env: Env, name: string): (r: Option<string>)
    ensures !Falsy(current) ==> r == current
    ensures Falsy(current) && Truthy(env, name) ==> r == Some(env[name])
    ensures Falsy(current) && !Truthy(env, name) ==> r == current
  {
    if Falsy(current) && Truthy(env, name) then Some(env[name]) else current
  }

  /** `if (process.env[name]) current = process.env[name]`: the variable wins over any flag. */
  function OverrideFromEnv(current: Option<string>, env: Env, name: string): (r: Option<string>)
    ensures Truthy(env, name) ==> r == Some(env[name])
    ensures !Truthy(env, name) ==> r == current
  {
    if Truthy(env, name) then Some(env[name]) else current
  }

  /**
   * The environment stage after the flag loop. `isTrue` stands for the helper that reads
   * a variable as a yes/no answer; it is not part of this model.
   */
  function ApplyEnv(c: Config, env: Env, isTrue: Option<string> -> bool): (r: Config)
    ensures r.prompt == c.prompt
    ensures c.useFlexTier ==> r.useFlexTier
    ensures c.autonomous ==> r.autonomous
    ensures Lookup(env, MonitorVar) != Some("false") ==> r.monitorRateLimits == c.monitorRateLimits
  {
    c.(model := FillFromEnv(c.model, env, ModelVar),
       compactionModel := FillFromEnv(c.compactionModel, env, CompactionModelVar),
       sessionPath := FillFromEnv(c.sessionPath, env, SessionVar),
       maxTurns := OverrideFromEnv(c.maxTurns, env, MaxTurnsVar),
       maxCost := OverrideFromEnv(c.maxCost, env, MaxCostVar),
       rateLimitThreshold := OverrideFromEnv(c.rateLimitThreshold, env, RateLimitThresholdVar),
       monitorRateLimits := if Lookup(env, MonitorVar) == Some("false") then Some(false) else c.monitorRateLimits,
       useFlexTier := c.useFlexTier || isTrue(Lookup(env, FlexTierVar)),
       autoApproveCodeInterpreter := c.autoApproveCodeInterpreter || isTrue(Lookup(env, AutoApproveCodeInterpreterVar)),
       autoApprovePatches := c.autoApprovePatches || isTrue(Lookup(env, AutoApprovePatchesVar)),
       autoApproveShell := c.autoApproveShell || isTrue(Lookup(env, AutoApproveShellVar)),
       autonomous := c.autonomous || isTrue(Lookup(env, AutonomousVar)))
  }

  // ---- default models ----

  /** The sentinel a user may give to ask for the default model. */
  const DefaultModelToken := "default"

  /** The default model names per provider; their values live outside this model. */
  datatype Defaults = Defaults(
    anthropicModel: string, anthropicCompactionModel: string,
    googleModel: string, googleCompactionModel: string,
    ollamaModel: string, ollamaCompactionModel: string,
    openAIModel: string, openAICompactionModel: string)

  /** Each default names a model of the provider it is the default for. */
  predicate WellFormed(d: Defaults) {
    GetModel.GetProvider(d.anthropicModel) == GetModel.Anthropic
    && GetModel.GetProvider(d.anthropicCompactionModel) == GetModel.Anthropic
    && GetModel.GetProvider(d.googleModel) == GetModel.Google
    && GetModel.GetProvider(d.googleCompactionModel) == GetModel.Google
    && GetModel.GetProvider(d.ollamaModel) == GetModel.Ollama
    && GetModel.GetProvider(d.ollamaCompactionModel) == GetModel.Ollama
    && GetModel.GetProvider(d.openAIModel) == GetModel.OpenAI
    && GetModel.GetProvider(d.openAICompactionModel) == GetModel.OpenAI
  }

  /** The default model, by which provider's variable is present: Anthropic, Google, Ollama, else OpenAI. */
  function DefaultModel(env: Env, d: Defaults): (r: string)
    ensures WellFormed(d) ==> (GetModel.GetProvider(r) == GetModel.Anthropic <==> Truthy(env, AnthropicKeyVar))
    ensures WellFormed(d) ==> (GetModel.GetProvider(r) == GetModel.Google <==>
      !Truthy(env, AnthropicKeyVar) && Truthy(env, GoogleKeyVar))
    ensures WellFormed(d) ==> (GetModel.GetProvider(r) == GetModel.Ollama <==>
      !Truthy(env, AnthropicKeyVar) && !Truthy(env, GoogleKeyVar) && Truthy(env, OllamaUrlVar))
  {
    if Truthy(env, AnthropicKeyVar) then d.anthropicModel
    else if Truthy(env, GoogleKeyVar) then d.googleModel
    else if Truthy(env, OllamaUrlVar) then d.ollamaModel
    else d.openAIModel
  }

  /** The model after defaulting: a missing, empty or `default` model is replaced. */
  function ResolveModel(model: Option<string>, env: Env, d: Defaults): (r: string)
    ensures !Falsy(model) && model != Some(DefaultModelToken) ==> r == model.value
    ensures WellFormed(d) && (Falsy(model) || model == Some(DefaultModelToken)) ==>
      (GetModel.GetProvider(r) == GetModel.Anthropic <==> Truthy(env, AnthropicKeyVar))
      && (GetModel.GetProvider(r) == GetModel.OpenAI <==>
          !Truthy(env, AnthropicKeyVar) && !Truthy(env, GoogleKeyVar) && !Truthy(env, OllamaUrlVar))
  {
    if Falsy(model) || model == Some(DefaultModelToken) then DefaultModel(env, d) else model.value
  }

  /** The default compaction model follows the prefix of the resolved model. */
  function DefaultCompactionModel(m: string, d: Defaults): (r: string)
    ensures WellFormed(d) ==> GetModel.GetProvider(r) == GetModel.GetProvider(m)
  {
    if StartsWith(m, "claude-") then d.anthropicCompactionModel
    else if StartsWith(m, "gemini-") then d.googleCompactionModel
    else if StartsWith(m, "ollama-") then d.ollamaCompactionModel
    else d.openAICompactionModel
  }

  /** The compaction model after defaulting: a defaulted one comes from the same provider as the model. */
  function ResolveCompactionModel(compactionModel: Option<string>, m: string, d: Defaults): (r: string)
    ensures !Falsy(compactionModel) && compactionModel != Some(DefaultModelToken) ==> r == compactionModel.value
    ensures WellFormed(d) && (Falsy(compactionModel) || compactionModel == Some(DefaultModelToken)) ==>
      GetModel.GetProvider(r) == GetModel.GetProvider(m)
  {
    if Falsy(compactionModel) || compactionModel == Some(DefaultModelToken) then DefaultCompactionModel(m, d)
    else compactionModel.value
  }

  /** For a model that is not an OpenAI model, tracing is switched off unless the variable already holds a value. */
  function WithTracingSwitch(env: Env, model: string): (r: Env)
    ensures GetModel.IsOpenAIModel(model) || Truthy(env, TracingVar) ==> r == env
    ensures !GetModel.IsOpenAIModel(model) ==> Truthy(r, TracingVar)
    ensures forall x :: x in env && x != TracingVar ==> x in r && r[x] == env[x]
    ensures forall x :: x in r ==> x in env || x == TracingVar
  {
    if GetModel.IsOpenAIModel(model) then env
    else
      var value := if Truthy(env, TracingVar) then env[TracingVar] else "1";
      assert Truthy(env, TracingVar) ==> env[TracingVar := value] == env;
      env[TracingVar := value]
  }

  /** Everything before the redirect: flags, environment, defaults and the tracing switch. */
  function Resolve(args: seq<string>, env: Env, d: Defaults, isTrue: Option<string> -> bool): (r: (Config, Env))
    ensures var c := ApplyEnv(ApplyFlags(args, Initial), env, isTrue);
      r.0.model.Some? && r.0.compactionModel.Some?
      && r.0.(model := c.model, compactionModel := c.compactionModel) == c
    ensures forall x :: x in env && x != TracingVar ==> x in r.1 && r.1[x] == env[x]
    ensures forall x :: x in r.1 ==> x in env || x == TracingVar
  {
    var c := ApplyEnv(ApplyFlags(args, Initial), env, isTrue);
    var m := ResolveModel(c.model, env, d);
    var cm := ResolveCompactionModel(c.compactionModel, m, d);
    (c.(model := Some(m), compactionModel := Some(cm)), WithTracingSwitch(env, m))
  }

  // ---- the deprecation redirect ----

  /** A name after `maybeRedirect`: the environment, the `.env` text written (if any) and the warning. */
  datatype Redirected = Redirected(name: string, env: Env, written: Option<string>, warning: Option<string>)

  /** `maybeRedirect`: a deprecated name is replaced, announced and written to its setting. */
  function MaybeRedirect(current: string, key: Deprecations.EnvKey, env: Env, file: Option<string>): (r: Redirected)
    ensures Deprecations.GetDeprecatedReplacement(Some(current)).None? ==> r == Redirected(current, env, None, None)
    ensures Deprecations.GetDeprecatedReplacement(Some(r.name)).None?
    ensures Deprecations.GetDeprecatedReplacement(Some(current)).Some? ==>
      r.name == Deprecations.GetDeprecatedReplacement(Some(current)).value.replacement
      && r.env == env[Deprecations.KeyName(key) := r.name]
      && r.written == Some(UpdateEnv.UpdateContent(file.GetOr(""), Deprecations.KeyName(key), r.name))
      && r.warning.Some?
  {
    match Deprecations.GetDeprecatedReplacement(Some(current))
    case None => Redirected(current, env, None, None)
    case Some(hit) =>
      Deprecations.RedirectIdempotent(Some(current));
      var p := Deprecations.WarnAndPersistRedirect(current, key, hit.replacement, hit.rule.reason, env, file);
      Redirected(hit.replacement, p.env, Some(p.file), Some(p.warning))
  }

  function Warnings(a: Redirected, b: Redirected): seq<string> {
    (if a.warning.Some? then [a.warning.value] else []) + (if b.warning.Some? then [b.warning.value] else [])
  }

  /**
   * The end of `parseArgs`: a help request prints the usage and exits with 0, a version
   * request prints the version and exits with 0; otherwise the configuration, the
   * environment, the `.env` text and the warnings printed.
   */
  datatype Outcome =
    | ShowHelp
    | ShowVersion
    | Parsed(config: Config, env: Env, file: Option<string>, warnings: seq<string>)

  /**
   * The redirect step as written. Neither `.env` update is awaited, so both read the file
   * as it was before either writes; `modelWrittenLast` says which write lands last.
   */
  function PersistRedirectsAsWritten(c: Config, env: Env, file: Option<string>, modelWrittenLast: bool): (r: Outcome)
    requires c.model.Some? && c.compactionModel.Some?
    ensures r.Parsed? && r.config.model.Some? && r.config.compactionModel.Some?
    ensures Deprecations.GetDeprecatedReplacement(r.config.model).None?
    ensures Deprecations.GetDeprecatedReplacement(r.config.compactionModel).None?
    ensures r.config.(model := c.model, compactionModel := c.compactionModel) == c
  {
    var a := MaybeRedirect(c.model.value, Deprecations.ModelKey, env, file);
    var b := MaybeRedirect(c.compactionModel.value, Deprecations.CompactionModelKey, a.env, file);
    var written := if a.written.Some? && b.written.Some? then (if modelWrittenLast then a.written else b.written)
                   else OrElse(b.written, a.written);
    Parsed(c.(model := Some(a.name), compactionModel := Some(b.name)), b.env, OrElse(written, file), Warnings(a, b))
  }

  /** The redirect step with the second `.env` update reading what the first one wrote. */
  function PersistRedirects(c: Config, env: Env, file: Option<string>): (r: Outcome)
    requires c.model.Some? && c.compactionModel.Some?
    ensures r.Parsed? && r.config.model.Some? && r.config.compactionModel.Some?
    ensures Deprecations.GetDeprecatedReplacement(r.config.model).None?
    ensures Deprecations.GetDeprecatedReplacement(r.config.compactionModel).None?
    ensures r.config.(model := c.model, compactionModel := c.compactionModel) == c
  {
    var a := MaybeRedirect(c.model.value, Deprecations.ModelKey, env, file);
    var b := MaybeRedirect(c.compactionModel.value, Deprecations.CompactionModelKey, a.env, OrElse(a.written, file));
    Parsed(c.(model := Some(a.name), compactionModel := Some(b.name)), b.env,
           OrElse(b.written, OrElse(a.written, file)), Warnings(a, b))
  }

  /** `parseArgs` as written. */
  function ParseArgsAsWritten(args: seq<string>, env: Env, file: Option<string>, d: Defaults,
                              isTrue: Option<string> -> bool, modelWrittenLast: bool): (r: Outcome)
    ensures Cli.IsHelpRequest(args) ==> r == ShowHelp
    ensures !Cli.IsHelpRequest(args) && Cli.IsVersionRequest(args) ==> r == ShowVersion
    ensures !Cli.IsHelpRequest(args) && !Cli.IsVersionRequest(args) ==> r.Parsed?
    ensures r.Parsed? ==> r.config.model.Some? && r.config.compactionModel.Some?
    ensures r.Parsed? ==> (Deprecations.GetDeprecatedReplacement(r.config.model).None?
      && Deprecations.GetDeprecatedReplacement(r.config.compactionModel).None?)
  {
    if Cli.IsHelpRequest(args) then ShowHelp
    else if Cli.IsVersionRequest(args) then ShowVersion
    else
      var (c, env1) := Resolve(args, env, d, isTrue);
      PersistRedirectsAsWritten(c, env1, file, modelWrittenLast)
  }

  /** `parseArgs` with the two `.env` updates made one after the other. */
  function ParseArgs(args: seq<string>, env: Env, file: Option<string>, d: Defaults,
                     isTrue: Option<string> -> bool): (r: Outcome)
    ensures Cli.IsHelpRequest(args) ==> r == ShowHelp
    ensures !Cli.IsHelpRequest(args) && Cli.IsVersionRequest(args) ==> r == ShowVersion
    ensures r.Parsed? ==> r.config.model.Some? && r.config.compactionModel.Some?
    ensures r.Parsed? ==> (Deprecations.GetDeprecatedReplacement(r.config.model).None?
      && Deprecations.GetDeprecatedReplacement(r.config.compactionModel).None?)
  {
    if Cli.IsHelpRequest(args) then ShowHelp
    else if Cli.IsVersionRequest(args) then ShowVersion
    else
      var (c, env1) := Resolve(args, env, d, isTrue);
      PersistRedirects(c, env1, file)
  }

  /**
   * The written and the ordered version reach the same outcome, configuration, environment
   * and warnings included; only the `.env` text they leave may differ.
   */
  lemma AsWrittenDiffersOnlyInFile(args: seq<string>, env: Env, file: Option<string>, d: Defaults,
                                   isTrue: Option<string> -> bool, modelWrittenLast: bool)
    ensures var w, f := ParseArgsAsWritten(args, env, file, d, isTrue, modelWrittenLast),
                        ParseArgs(args, env, file, d, isTrue);
      (w.Parsed? <==> f.Parsed?)
      && (!w.Parsed? ==> w == f)
      && (w.Parsed? ==> w.config == f.config && w.env == f.env && w.warnings == f.warnings)
  {
    if !Cli.IsHelpRequest(args) && !Cli.IsVersionRequest(args) {
      var (c, env1) := Resolve(args, env, d, isTrue);
      var a := MaybeRedirect(c.model.value, Deprecations.ModelKey, env1, file);
      RedirectIgnoresFile(c.compactionModel.value, Deprecations.CompactionModelKey, a.env, file, OrElse(a.written, file));
    }
  }

  /** What a redirect does to the name, the environment and the warning does not depend on the file. */
  lemma RedirectIgnoresFile(current: string, key: Deprecations.EnvKey, env: Env, f1: Option<string>, f2: Option<string>)
    ensures var a, b := MaybeRedirect(current, key, env, f1), MaybeRedirect(current, key, env, f2);
      a.name == b.name && a.env == b.env && a.warning == b.warning && (a.written.Some? <==> b.written.Some?)
  {
  }

  // ---- properties of the resolved configuration ----

  /** A non-empty model flag other than `default` survives the environment and the defaults. */
  lemma FlagModelBeatsEnv(args: seq<string>, env: Env, d: Defaults, isTrue: Option<string> -> bool)
    requires !Falsy(ApplyFlags(args, Initial).model) && ApplyFlags(args, Initial).model != Some(DefaultModelToken)
    ensures Resolve(args, env, d, isTrue).0.model == ApplyFlags(args, Initial).model
  {
  }

  /** Without a model flag, `HARPER_AGENT_MODEL` supplies the model. */
  lemma EnvModelFillsGap(args: seq<string>, env: Env, d: Defaults, isTrue: Option<string> -> bool)
    requires Falsy(ApplyFlags(args, Initial).model) && Truthy(env, ModelVar) && env[ModelVar] != DefaultModelToken
    ensures Resolve(args, env, d, isTrue).0.model == Some(env[ModelVar])
  {
  }

  /** The numeric variables win over the flags whenever they hold a value. */
  lemma NumericEnvWins(args: seq<string>, env: Env, d: Defaults, isTrue: Option<string> -> bool)
    ensures Truthy(env, MaxTurnsVar) ==> Resolve(args, env, d, isTrue).0.maxTurns == Some(env[MaxTurnsVar])
    ensures Truthy(env, MaxCostVar) ==> Resolve(args, env, d, isTrue).0.maxCost == Some(env[MaxCostVar])
    ensures Truthy(env, RateLimitThresholdVar) ==>
      Resolve(args, env, d, isTrue).0.rateLimitThreshold == Some(env[RateLimitThresholdVar])
  {
  }

  /** The default model belongs to a provider whose variable is set, or to OpenAI. */
  lemma DefaultModelUsable(env: Env, d: Defaults)
    requires WellFormed(d)
    ensures var p := GetModel.GetProvider(DefaultModel(env, d));
      p == GetModel.OpenAI || Truthy(env, ProviderEnv.EnvVarForProvider(p))
  {
  }

  /** A redirect keeps the provider of the name it replaces. */
  lemma RedirectKeepsProviderOf(current: string, key: Deprecations.EnvKey, env: Env, file: Option<string>)
    ensures GetModel.GetProvider(MaybeRedirect(current, key, env, file).name) == GetModel.GetProvider(current)
  {
    if Deprecations.GetDeprecatedReplacement(Some(current)).Some? {
      Deprecations.RedirectKeepsProvider(current);
    }
  }

  /** When the compaction model is left to its default, it ends with the model's provider, redirect included. */
  lemma DefaultCompactionSharesProvider(args: seq<string>, env: Env, file: Option<string>, d: Defaults,
                                        isTrue: Option<string> -> bool)
    requires WellFormed(d)
    requires var c := ApplyEnv(ApplyFlags(args, Initial), env, isTrue);
      Falsy(c.compactionModel) || c.compactionModel == Some(DefaultModelToken)
    requires ParseArgs(args, env, file, d, isTrue).Parsed?
    ensures var r := ParseArgs(args, env, file, d, isTrue);
      GetModel.GetProvider(r.config.model.value) == GetModel.GetProvider(r.config.compactionModel.value)
  {
    var (c, env1) := Resolve(args, env, d, isTrue);
    var a := MaybeRedirect(c.model.value, Deprecations.ModelKey, env1, file);
    RedirectKeepsProviderOf(c.model.value, Deprecations.ModelKey, env1, file);
    RedirectKeepsProviderOf(c.compactionModel.value, Deprecations.CompactionModelKey, a.env, OrElse(a.written, file));
  }

  /** The key check's fallback for a missing name keeps the provider of an empty name. */
  lemma FallbackKeepsProvider(x: string, fallback: string)
    requires GetModel.GetProvider(fallback) == GetModel.OpenAI
    ensures GetModel.GetProvider(EnsureApiKey.OrFallback(Some(x), fallback)) == GetModel.GetProvider(x)
  {
    if x == "" {
      assert !StartsWith(x, "claude-") && !StartsWith(x, "gemini-") && !StartsWith(x, "ollama-");
    }
  }

  /** Two models of one provider need at most one key. */
  lemma OneProviderAtMostOneKey(m: string, cm: string)
    requires GetModel.GetProvider(m) == GetModel.GetProvider(cm)
    ensures |EnsureApiKey.RequiredEnvVars([m, cm])| <= 1
  {
    if GetModel.GetProvider(m) == GetModel.Ollama {
      EnsureApiKey.RequiredVarIsProviderVar(m);
      EnsureApiKey.RequiredVarIsProviderVar(cm);
      assert [m, cm][..1] == [m];
      assert [m][..0] == [];
    } else {
      EnsureApiKey.SameProviderOneKey(m, cm);
    }
  }

  /** Two named models of one provider need at most one key, fallbacks included. */
  lemma SharedProviderOneKey(m: string, cm: string)
    requires GetModel.GetProvider(m) == GetModel.GetProvider(cm)
    ensures |EnsureApiKey.RequiredEnvVars(EnsureApiKey.Models(Some(m), Some(cm)))| <= 1
  {
    assert GetModel.GetProvider(EnsureApiKey.FallbackModel) == GetModel.OpenAI by {
      var f := EnsureApiKey.FallbackModel;
      assert f[0] == 'g' && f[1] == 'p';
      assert GetModel.ClaudePrefix[0] == 'c' && GetModel.GeminiPrefix[1] == 'e' && GetModel.OllamaPrefix[0] == 'o';
    }
    assert GetModel.GetProvider(EnsureApiKey.FallbackCompactionModel) == GetModel.OpenAI by {
      var f := EnsureApiKey.FallbackCompactionModel;
      assert f[0] == 'g' && f[1] == 'p';
      assert GetModel.ClaudePrefix[0] == 'c' && GetModel.GeminiPrefix[1] == 'e' && GetModel.OllamaPrefix[0] == 'o';
    }
    FallbackKeepsProvider(m, EnsureApiKey.FallbackModel);
    FallbackKeepsProvider(cm, EnsureApiKey.FallbackCompactionModel);
    OneProviderAtMostOneKey(EnsureApiKey.OrFallback(Some(m), EnsureApiKey.FallbackModel),
                            EnsureApiKey.OrFallback(Some(cm), EnsureApiKey.FallbackCompactionModel));
  }

  /**
   * When the compaction model is left to its default, the key check that follows asks
   * for at most one key.
   */
  lemma DefaultCompactionNeedsNoExtraKey(args: seq<string>, env: Env, file: Option<string>, d: Defaults,
                                         isTrue: Option<string> -> bool)
    requires WellFormed(d)
    requires var c := ApplyEnv(ApplyFlags(args, Initial), env, isTrue);
      Falsy(c.compactionModel) || c.compactionModel == Some(DefaultModelToken)
    requires ParseArgs(args, env, file, d, isTrue).Parsed?
    ensures var r := ParseArgs(args, env, file, d, isTrue);
      |EnsureApiKey.RequiredEnvVars(EnsureApiKey.Models(r.config.model, r.config.compactionModel))| <= 1
  {
    var r := ParseArgs(args, env, file, d, isTrue);
    DefaultCompactionSharesProvider(args, env, file, d, isTrue);
    SharedProviderOneKey(r.config.model.value, r.config.compactionModel.value);
  }

  // ---- the redirect's writes to `.env` ----

  const Nano := "gpt-5-nano"

  /** The two setting names are distinct, `=`-free, single-line, and the replacement is single-line. */
  lemma SettingNamesClean()
    ensures Deprecations.KeyName(Deprecations.ModelKey) == ModelVar
    ensures Deprecations.KeyName(Deprecations.CompactionModelKey) == CompactionModelVar
    ensures UpdateEnv.NoEquals(ModelVar) && UpdateEnv.NoEquals(CompactionModelVar)
    ensures UpdateEnv.NoLineTerminator(ModelVar) && UpdateEnv.NoLineTerminator(CompactionModelVar)
    ensures UpdateEnv.NoLineTerminator(Nano) && ModelVar != CompactionModelVar
  {
    assert ModelVar[13] != CompactionModelVar[13];
  }

  /** Every replacement is `gpt-5-nano`. */
  lemma ReplacementIsNano(current: string)
    requires Deprecations.GetDeprecatedReplacement(Some(current)).Some?
    ensures Deprecations.GetDeprecatedReplacement(Some(current)).value.replacement == Nano
  {
  }

  /** A redirect writes its setting's line `KEY=gpt-5-nano`. */
  lemma RedirectWritesLine(current: string, key: Deprecations.EnvKey, env: Env, file: Option<string>)
    requires Deprecations.GetDeprecatedReplacement(Some(current)).Some?
    ensures var r := MaybeRedirect(current, key, env, file);
      r.written.Some? && UpdateEnv.HasLine(r.written.value, Deprecations.KeyName(key), r.name)
  {
    SettingNamesClean();
    ReplacementIsNano(current);
    var r := MaybeRedirect(current, key, env, file);
    UpdateEnv.UpdatedHasLine(file.GetOr(""), Deprecations.KeyName(key), r.name);
  }

  /** A redirect of the compaction model keeps the model's line that is already in the file. */
  lemma CompactionRedirectKeepsModelLine(current: string, env: Env, file: Option<string>, v: string)
    requires UpdateEnv.NoLineTerminator(v) && UpdateEnv.HasLine(file.GetOr(""), ModelVar, v)
    requires Deprecations.GetDeprecatedReplacement(Some(current)).Some?
    ensures var r := MaybeRedirect(current, Deprecations.CompactionModelKey, env, file);
      r.written.Some? && UpdateEnv.HasLine(r.written.value, ModelVar, v)
  {
    SettingNamesClean();
    var r := MaybeRedirect(current, Deprecations.CompactionModelKey, env, file);
    UpdateEnv.OtherUpdateKeepsLine(file.GetOr(""), ModelVar, v, CompactionModelVar, r.name);
  }

  /** With the writes made in order, a redirected model is persisted: its line survives the second write. */
  lemma ModelRedirectPersisted(c: Config, env: Env, file: Option<string>)
    requires c.model.Some? && c.compactionModel.Some?
    requires Deprecations.GetDeprecatedReplacement(c.model).Some?
    ensures var r := PersistRedirects(c, env, file);
      r.file.Some? && UpdateEnv.HasLine(r.file.value, ModelVar, r.config.model.value)
  {
    var a := MaybeRedirect(c.model.value, Deprecations.ModelKey, env, file);
    ModelLineWritten(c.model.value, env, file);
    SecondWriteKeepsModelLine(c.compactionModel.value, a.env, OrElse(a.written, file), a.name);
  }

  /** Whatever the compaction model's redirect writes, a model line already in the file survives it. */
  lemma SecondWriteKeepsModelLine(current: string, env: Env, file: Option<string>, v: string)
    requires file.Some? && UpdateEnv.HasLine(file.value, ModelVar, v) && UpdateEnv.NoLineTerminator(v)
    ensures var b := MaybeRedirect(current, Deprecations.CompactionModelKey, env, file);
      OrElse(b.written, file).Some? && UpdateEnv.HasLine(OrElse(b.written, file).value, ModelVar, v)
  {
    if Deprecations.GetDeprecatedReplacement(Some(current)).Some? {
      CompactionRedirectKeepsModelLine(current, env, file, v);
    }
  }

  /** The model's redirect leaves a file holding the line of the replacement name. */
  lemma ModelLineWritten(current: string, env: Env, file: Option<string>)
    requires Deprecations.GetDeprecatedReplacement(Some(current)).Some?
    ensures var a := MaybeRedirect(current, Deprecations.ModelKey, env, file);
      a.written.Some? && UpdateEnv.HasLine(a.written.value, ModelVar, a.name) && UpdateEnv.NoLineTerminator(a.name)
  {
    SettingNamesClean();
    RedirectWritesLine(current, Deprecations.ModelKey, env, file);
    ReplacementIsNano(current);
  }

  /** With the writes made in order, a redirected compaction model is persisted. */
  lemma CompactionRedirectPersisted(c: Config, env: Env, file: Option<string>)
    requires c.model.Some? && c.compactionModel.Some?
    requires Deprecations.GetDeprecatedReplacement(c.compactionModel).Some?
    ensures var r := PersistRedirects(c, env, file);
      r.file.Some? && UpdateEnv.HasLine(r.file.value, CompactionModelVar, r.config.compactionModel.value)
  {
    SettingNamesClean();
    var a := MaybeRedirect(c.model.value, Deprecations.ModelKey, env, file);
    RedirectWritesLine(c.compactionModel.value, Deprecations.CompactionModelKey, a.env, OrElse(a.written, file));
  }

  // ---- the lost update ----

  /** The names that the counterexample redirects. */
  const Gpt4o := "gpt-4o"

  lemma Gpt4oIsRedirected()
    ensures Deprecations.GetDeprecatedReplacement(Some(Gpt4o)) ==
      Some(Deprecations.Hit(Nano, Deprecations.Gpt4oRule))
  {
    Deprecations.LowerGpt4o();
    Deprecations.Gpt4oRedirected(Gpt4o);
  }

  /** Writing one setting to an empty `.env` gives exactly its line. */
  lemma WriteToEmpty(key: string)
    ensures UpdateEnv.UpdateContent("", key, Nano) == UpdateEnv.Entry(key, Nano) + "\n"
  {
    UpdateEnv.AppendKeepsText("", key, Nano);
  }

  /** The compaction model's line alone does not hold the model's line. */
  lemma ModelLineAbsent()
    ensures !UpdateEnv.HasLine(UpdateEnv.Entry(CompactionModelVar, Nano) + "\n", ModelVar, Nano)
  {
    var t := UpdateEnv.Entry(CompactionModelVar, Nano) + "\n";
    var line := UpdateEnv.Entry(ModelVar, Nano);
    assert |t| == 41 && |line| == 29;
    forall i: nat | i <= |t| ensures !UpdateEnv.LineAt(t, ModelVar, Nano, i) {
      if i == 0 {
        assert t[13] == 'C' && line[13] == 'M';
        assert t[..30][13] != line[13];
      } else if i <= 12 {
        assert t[i - 1] == CompactionModelVar[i - 1];
      }
    }
  }

  /**
   * The model `gpt-4o` and the compaction model `gpt-4o` with an empty `.env`: as
   * written, whichever write lands last, the file ends up without one of the two lines.
   */
  lemma LostRedirect(modelWrittenLast: bool)
    ensures var c := Initial.(model := Some(Gpt4o), compactionModel := Some(Gpt4o));
      var r := PersistRedirectsAsWritten(c, map[], Some(""), modelWrittenLast);
      r.file.Some? && r.config.model == Some(Nano) && r.config.compactionModel == Some(Nano)
      && (!UpdateEnv.HasLine(r.file.value, ModelVar, Nano) || !UpdateEnv.HasLine(r.file.value, CompactionModelVar, Nano))
  {
    Gpt4oIsRedirected();
    SettingNamesClean();
    WriteToEmpty(ModelVar);
    WriteToEmpty(CompactionModelVar);
    if modelWrittenLast {
      assert |UpdateEnv.Entry(ModelVar, Nano) + "\n"| < |UpdateEnv.Entry(CompactionModelVar, Nano)|;
    } else {
      ModelLineAbsent();
    }
  }

  /** The same input with the writes made in order keeps both lines. */
  lemma BothRedirectsKept()
    ensures var c := Initial.(model := Some(Gpt4o), compactionModel := Some(Gpt4o));
      var r := PersistRedirects(c, map[], Some(""));
      r.file.Some? && UpdateEnv.HasLine(r.file.value, ModelVar, Nano) && UpdateEnv.HasLine(r.file.value, CompactionModelVar, Nano)
  {
    var c := Initial.(model := Some(Gpt4o), compactionModel := Some(Gpt4o));
    Gpt4oIsRedirected();
    ModelRedirectPersisted(c, map[], Some(""));
    CompactionRedirectPersisted(c, map[], Some(""));
  }

  /** Two spellings, each with a value: both keys are set, the later one last. */
  lemma TwoFlags(k1: Key, a1: string, v1: string, k2: Key, a2: string, v2: string, c: Config)
    requires a1 in Aliases(k1) && a2 in Aliases(k2) && v1 != "" && v2 != ""
    ensures ApplyFlags([a1, v1, a2, v2], c) == SetField(SetField(c, k1, StripQuotes(v1)), k2, StripQuotes(v2))
  {
    SpellingClaimed(k1, a1);
    SpellingClaimed(k2, a2);
    TwoClaimedFlags(k1, a1, v1, k2, a2, v2, c);
  }

  lemma TwoClaimedFlags(k1: Key, a1: string, v1: string, k2: Key, a2: string, v2: string, c: Config)
    requires MatchFlag(a1, FlagKeys) == Some((k1, Exact)) && MatchFlag(a2, FlagKeys) == Some((k2, Exact))
    requires v1 != "" && v2 != ""
    ensures ApplyFlags([a1, v1, a2, v2], c) == SetField(SetField(c, k1, StripQuotes(v1)), k2, StripQuotes(v2))
  {
    var rest: seq<string> := [a2, v2];
    assert [a1, v1, a2, v2] == [a1, v1] + rest;
    assert rest == [a2, v2] + [];
    var c1 := SetField(c, k1, StripQuotes(v1));
    var c2 := SetField(c1, k2, StripQuotes(v2));
    ExactTakesNext(k1, a1, v1, rest, c);
    ExactTakesNext(k2, a2, v2, [], c1);
    assert ApplyFlags([], c2) == c2;
  }

  /** That configuration is what `-m gpt-4o -c gpt-4o` gives with an empty environment. */
  lemma CounterexampleArguments(args: seq<string>, d: Defaults, isTrue: Option<string> -> bool)
    requires args == ["-m", Gpt4o, "-c", Gpt4o]
    ensures var c := Resolve(args, map[], d, isTrue).0;
      c.model == Some(Gpt4o) && c.compactionModel == Some(Gpt4o)
  {
    var m := Gpt4o;
    TwoFlags(ModelKey, "-m", m, CompactionModelKey, "-c", m, Initial);
    assert StripQuotes(m) == m;
    var c0 := ApplyFlags(args, Initial);
    assert c0.model == Some(m) && c0.compactionModel == Some(m);
    var c := ApplyEnv(c0, map[], isTrue);
    assert c.model == Some(m) && c.compactionModel == Some(m);
    assert m != DefaultModelToken;
    assert ResolveModel(c.model, map[], d) == m;
  }
}
