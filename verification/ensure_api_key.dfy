/**
 * Making sure the API keys the configured models need are present: the set of required
 * variables, and the prompt-and-save loop over the ones still missing.
 */
module EnsureApiKey {
  import opened Wrappers
  import opened Strings
  import opened EnvVars
  import GetModel
  import ProviderEnv
  import UpdateEnv

  const FallbackModel := "gpt-5.2"
  const FallbackCompactionModel := "gpt-4o-mini"
  const TracingVar := "OPENAI_AGENTS_DISABLE_TRACING"
  const OpenAIKeyVar := "OPENAI_API_KEY"

  /** `name || fallback` for a nullable name. */
  function OrFallback(name: Option<string>, fallback: string): (r: string)
    ensures name.Some? && name.value != "" ==> r == name.value
    ensures name.None? || name == Some("") ==> r == fallback
  {
    if name.Some? && name.value != "" then name.value else fallback
  }

  /** The two models whose providers need keys, with the defaults for missing names. */
  function Models(model: Option<string>, compactionModel: Option<string>): seq<string> {
    [OrFallback(model, FallbackModel), OrFallback(compactionModel, FallbackCompactionModel)]
  }

  /** The variable one model needs: none for Ollama, the provider's key otherwise. */
  function RequiredVar(model: string): Option<string> {
    if StartsWith(model, "claude-") then Some("ANTHROPIC_API_KEY")
    else if StartsWith(model, "gemini-") then Some("GOOGLE_GENERATIVE_AI_API_KEY")
    else if StartsWith(model, "ollama-") then None
    else Some(OpenAIKeyVar)
  }

  predicate NoDuplicates(s: seq<string>) {
    forall i, j :: 0 <= i < j < |s| ==> s[i] != s[j]
  }

  /** `Set.add`: a new member goes to the end, an existing one stays where it is. */
  function Add(members: seq<string>, x: string): (r: seq<string>)
    ensures NoDuplicates(members) ==> NoDuplicates(r)
    ensures forall v :: v in r <==> v in members || v == x
    ensures members <= r && |r| <= |members| + 1
  {
    if x in members then members else members + [x]
  }

  /** `requiredEnvVars`: each needed variable once, in order of first need. */
  function RequiredEnvVars(models: seq<string>): (r: seq<string>)
    ensures NoDuplicates(r) && |r| <= |models|
    ensures forall v :: v in r <==> exists i :: 0 <= i < |models| && RequiredVar(models[i]) == Some(v)
    decreases |models|
  {
    if |models| == 0 then []
    else
      var prefix := models[..|models| - 1];
      var last := models[|models| - 1];
      assert forall i :: 0 <= i < |prefix| ==> prefix[i] == models[i];
      match RequiredVar(last)
      case None => RequiredEnvVars(prefix)
      case Some(v) => Add(RequiredEnvVars(prefix), v)
  }

  /** A variable counts as set when it holds a non-empty value. */
  predicate IsSet(env: Env, v: string) {
    v in env && env[v] != ""
  }

  /** The provider named in the prompt for a variable, and where to get a key. */
  function ProviderLabel(v: string): string {
    if v == "ANTHROPIC_API_KEY" then "Anthropic"
    else if v == "GOOGLE_GENERATIVE_AI_API_KEY" then "Google AI"
    else "OpenAI"
  }

  function KeyUrl(v: string): string {
    if v == "ANTHROPIC_API_KEY" then "https://console.anthropic.com/settings/keys"
    else if v == "GOOGLE_GENERATIVE_AI_API_KEY" then "https://aistudio.google.com/app/apikey"
    else "https://platform.openai.com/api-keys"
  }

  function PromptText(v: string): string {
    ProviderLabel(v) + " API Key: "
  }

  /** A key entered at the prompt, and the variable it is saved under. */
  datatype Entered = Entered(variable: string, key: string)

  /**
   * Where the loop ends: all keys present, or the process exits with status 1 after an
   * empty answer. `prompted` lists the variables asked for, in order, and `saved` the
   * keys written, in order.
   */
  datatype KeyOutcome =
    | Ready(env: Env, saved: seq<Entered>, prompted: seq<string>)
    | Exited(status: int, env: Env, saved: seq<Entered>, prompted: seq<string>)

  /**
   * Saving an entered key: the variable itself, and for OpenAI also tracing switched off;
   * the process environment side of the two `updateEnv` calls, which set the variable
   * before writing the file.
   */
  function SavedEnv(env: Env, v: string, key: string): (r: Env)
    ensures v in r && r[v] == key
    ensures forall x :: x in env && x != v && x != TracingVar ==> x in r && r[x] == env[x]
    ensures key != "" ==> forall x :: IsSet(env, x) ==> IsSet(r, x)
  {
    var env1 := env[v := key];
    if v == OpenAIKeyVar then env1[TracingVar := "1"] else env1
  }

  /** The `.env` text after saving an entered key, with the same one or two updates. */
  function SavedFile(file: Option<string>, e: Entered): string
  {
    var file1 := UpdateEnv.UpdateContent(file.GetOr(""), e.variable, e.key);
    if e.variable == OpenAIKeyVar then UpdateEnv.UpdateContent(file1, TracingVar, "1") else file1
  }

  /** The `.env` text after the keys entered were saved one after another; a missing file reads as empty. */
  function SavedFiles(file: Option<string>, saved: seq<Entered>): (r: Option<string>)
    ensures |saved| > 0 ==> r.Some?
    ensures |saved| == 0 ==> r == file
    decreases |saved|
  {
    if |saved| == 0 then file else SavedFiles(Some(SavedFile(file, saved[0])), saved[1..])
  }

  function WithPrompt(v: string, o: KeyOutcome): KeyOutcome {
    o.(prompted := [v] + o.prompted)
  }

  function WithSave(e: Entered, o: KeyOutcome): KeyOutcome {
    o.(prompted := [e.variable] + o.prompted, saved := [e] + o.saved)
  }

  /**
   * The loop of `ensureApiKey` over the required variables: one already set is skipped;
   * otherwise the key is asked for, an empty answer exits, and a given one is saved.
   * `answer(v)` stands for what is typed at the secure prompt `PromptText(v)`.
   */
  function AskKeys(vars: seq<string>, env: Env, answer: string -> string): (r: KeyOutcome)
    ensures r.Ready? ==> forall v :: v in vars ==> IsSet(r.env, v)
    ensures forall x :: IsSet(env, x) ==> IsSet(r.env, x)
    ensures r.Exited? ==> r.status == 1 && |r.prompted| > 0 && answer(r.prompted[|r.prompted| - 1]) == ""
    decreases |vars|
  {
    if |vars| == 0 then Ready(env, [], [])
    else
      var v := vars[0];
      if IsSet(env, v) then AskKeys(vars[1..], env, answer)
      else
        var key := answer(v);
        if key == "" then Exited(1, env, [], [v])
        else
          var rest := AskKeys(vars[1..], SavedEnv(env, v, key), answer);
          SavedStaysSet(vars, env, key, rest.env, rest.Ready?);
          var r := WithSave(Entered(v, key), rest);
          assert r.Exited? ==> r.prompted[|r.prompted| - 1] == rest.prompted[|rest.prompted| - 1];
          r
  }

  /** What the rest of the loop keeps set, with the first variable saved before it, covers the whole. */
  lemma SavedStaysSet(vars: seq<string>, env: Env, key: string, after: Env, ready: bool)
    requires |vars| > 0 && key != ""
    requires forall x :: IsSet(SavedEnv(env, vars[0], key), x) ==> IsSet(after, x)
    requires ready ==> forall x :: x in vars[1..] ==> IsSet(after, x)
    ensures forall x :: IsSet(env, x) ==> IsSet(after, x)
    ensures ready ==> forall x :: x in vars ==> IsSet(after, x)
  {
    if ready {
      forall x | x in vars ensures IsSet(after, x) {
        if x != vars[0] {
          assert x in vars[1..];
        }
      }
    }
  }

  /**
   * `ensureApiKey` for the tracked model and compaction model: where the loop ends, and
   * the `.env` text after the keys it saved.
   */
  function EnsureApiKeys(model: Option<string>, compactionModel: Option<string>, env: Env,
                         file: Option<string>, answer: string -> string): (r: (KeyOutcome, Option<string>))
    ensures r.0.Ready? ==> forall v :: v in RequiredEnvVars(Models(model, compactionModel)) ==> IsSet(r.0.env, v)
    ensures forall x :: IsSet(env, x) ==> IsSet(r.0.env, x)
    ensures r.0.Exited? ==> r.0.status == 1
    ensures |r.0.saved| == 0 ==> r.1 == file
    ensures |r.0.saved| > 0 ==> r.1.Some?
  {
    var o := AskKeys(RequiredEnvVars(Models(model, compactionModel)), env, answer);
    (o, SavedFiles(file, o.saved))
  }

  // ---- properties ----

  /** The variable a model needs is its provider's variable, and Ollama needs none. */
  lemma RequiredVarIsProviderVar(model: string)
    ensures GetModel.GetProvider(model) == GetModel.Ollama ==> RequiredVar(model).None?
    ensures GetModel.GetProvider(model) != GetModel.Ollama ==>
      RequiredVar(model) == Some(ProviderEnv.EnvVarForProvider(GetModel.GetProvider(model)))
  {
  }

  /** Two models of one hosted provider need one key. */
  lemma SameProviderOneKey(m1: string, m2: string)
    requires GetModel.GetProvider(m1) == GetModel.GetProvider(m2) != GetModel.Ollama
    ensures RequiredEnvVars([m1, m2]) == [ProviderEnv.EnvVarForProvider(GetModel.GetProvider(m1))]
  {
    RequiredVarIsProviderVar(m1);
    RequiredVarIsProviderVar(m2);
    assert [m1, m2][..1] == [m1];
    assert [m1][..0] == [];
  }

  /** With neither model configured, only the OpenAI key is needed. */
  lemma FallbacksNeedOpenAIKey()
    ensures RequiredEnvVars(Models(None, None)) == [OpenAIKeyVar]
  {
    var ms := Models(None, None);
    assert ms[0][0] == 'g' && ms[1][0] == 'g' && ms[0][1] == 'p' && ms[1][1] == 'p';
    assert ms[..1] == [ms[0]];
    assert [ms[0]][..0] == [];
  }

  /** Only required variables that were unset get asked for. */
  lemma {:induction false} PromptedWereMissing(vars: seq<string>, env: Env, answer: string -> string)
    ensures var r := AskKeys(vars, env, answer);
      forall v :: v in r.prompted ==> v in vars && !IsSet(env, v)
    decreases |vars|
  {
    if |vars| > 0 {
      var v := vars[0];
      if IsSet(env, v) {
        PromptedWereMissing(vars[1..], env, answer);
      } else {
        var key := answer(v);
        if key != "" {
          var env' := SavedEnv(env, v, key);
          PromptedWereMissing(vars[1..], env', answer);
        }
      }
    }
  }

  /** A variable that was not asked for keeps its value, the tracing switch aside. */
  lemma {:induction false} UnpromptedKept(vars: seq<string>, env: Env, answer: string -> string)
    ensures var r := AskKeys(vars, env, answer);
      forall x :: x in env && x !in r.prompted && x != TracingVar ==> x in r.env && r.env[x] == env[x]
    decreases |vars|
  {
    if |vars| > 0 {
      var v := vars[0];
      if IsSet(env, v) {
        UnpromptedKept(vars[1..], env, answer);
      } else {
        var key := answer(v);
        if key != "" {
          var env' := SavedEnv(env, v, key);
          UnpromptedKept(vars[1..], env', answer);
        }
      }
    }
  }

  /**
   * When the required variables are distinct and do not include the tracing switch,
   * every one of them that was unset is asked for, in order, on the way to `Ready`.
   */
  lemma {:induction false} EveryMissingKeyAsked(vars: seq<string>, env: Env, answer: string -> string)
    requires NoDuplicates(vars) && TracingVar !in vars
    ensures var r := AskKeys(vars, env, answer);
      r.Ready? ==> forall v :: v in vars && !IsSet(env, v) ==> v in r.prompted
    decreases |vars|
  {
    if |vars| > 0 {
      var v := vars[0];
      assert forall i, j :: 0 <= i < j < |vars[1..]| ==> vars[1..][i] == vars[i + 1] && vars[1..][j] == vars[j + 1];
      if IsSet(env, v) {
        EveryMissingKeyAsked(vars[1..], env, answer);
        forall x | x in vars && !IsSet(env, x) ensures x in vars[1..] {
          assert x != v;
        }
      } else {
        var key := answer(v);
        if key != "" {
          var env' := SavedEnv(env, v, key);
          EveryMissingKeyAsked(vars[1..], env', answer);
          forall x | x in vars && !IsSet(env, x) && x != v ensures x in vars[1..] && !IsSet(env', x) {
          }
        }
      }
    }
  }

  /**
   * The keys saved are the answers to the prompts, one per prompt and in the same order;
   * only the empty answer that ends the loop with an exit is not saved.
   */
  predicate AnswersSaved(o: KeyOutcome, answer: string -> string) {
    |o.saved| == |o.prompted| - (if o.Exited? then 1 else 0)
    && forall i :: 0 <= i < |o.saved| ==>
         o.saved[i].variable == o.prompted[i] && o.saved[i].key == answer(o.prompted[i]) != ""
  }

  lemma {:induction false} SavedAreAnswers(vars: seq<string>, env: Env, answer: string -> string)
    ensures AnswersSaved(AskKeys(vars, env, answer), answer)
    decreases |vars|
  {
    if |vars| > 0 {
      var v := vars[0];
      if IsSet(env, v) {
        SavedAreAnswers(vars[1..], env, answer);
      } else {
        var key := answer(v);
        if key != "" {
          var rest := AskKeys(vars[1..], SavedEnv(env, v, key), answer);
          SavedAreAnswers(vars[1..], SavedEnv(env, v, key), answer);
          assert AskKeys(vars, env, answer) == WithSave(Entered(v, key), rest);
          SaveKeepsAnswers(Entered(v, key), rest, answer);
        }
      }
    }
  }

  /** Saving an answered key in front of the rest of the loop keeps keys and prompts paired. */
  lemma SaveKeepsAnswers(e: Entered, rest: KeyOutcome, answer: string -> string)
    requires e.key == answer(e.variable) != "" && AnswersSaved(rest, answer)
    ensures AnswersSaved(WithSave(e, rest), answer)
  {
    var r := WithSave(e, rest);
    forall i | 0 <= i < |r.saved|
      ensures r.saved[i].variable == r.prompted[i] && r.saved[i].key == answer(r.prompted[i]) != ""
    {
      if i > 0 {
        assert r.saved[i] == rest.saved[i - 1] && r.prompted[i] == rest.prompted[i - 1];
      }
    }
  }

  /** After a key is saved, the `.env` text holds its line, also when tracing is switched off after it. */
  lemma SavedFileHasKey(file: Option<string>, e: Entered)
    requires UpdateEnv.NoLineTerminator(e.variable) && UpdateEnv.NoLineTerminator(e.key)
    requires UpdateEnv.NoEquals(e.variable) && e.variable != TracingVar
    ensures UpdateEnv.HasLine(SavedFile(file, e), e.variable, e.key)
  {
    var f1 := UpdateEnv.UpdateContent(file.GetOr(""), e.variable, e.key);
    UpdateEnv.UpdatedHasLine(file.GetOr(""), e.variable, e.key);
    if e.variable == OpenAIKeyVar {
      TracingVarIsPlain();
      UpdateEnv.OtherUpdateKeepsLine(f1, e.variable, e.key, TracingVar, "1");
    }
  }

  lemma TracingVarIsPlain()
    ensures UpdateEnv.NoLineTerminator(TracingVar) && UpdateEnv.NoEquals(TracingVar)
  {
    var t := TracingVar;
    forall i | 0 <= i < |t| ensures !UpdateEnv.IsLineTerminator(t[i]) && t[i] != '=' {
      assert t[i] in "ABCDEFGHIJKLMNOPQRSTUVWXYZ_";
    }
  }
}
