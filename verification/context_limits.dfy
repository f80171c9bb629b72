/**
 * Conservative context-window sizes per model family, and the token count at which
 * compaction triggers: a clamped fraction of the window.
 */
module ContextLimits {
  import opened Wrappers
  import opened Strings

  const DefaultLimit: nat := 128000
  const DefaultFraction: real := 0.8
  const MinFraction: real := 0.5
  const MaxFraction: real := 0.95

  /** The context limit for a model name; a missing or empty name gets the default. */
  function ContextLimit(name: Option<string>): (limit: nat)
    ensures limit in {8000, 128000, 200000, 1000000}
    ensures name.None? || name == Some("") ==> limit == DefaultLimit
  {
    if name.None? || name.value == "" then DefaultLimit
    else
      var n := ToLower(name.value);
      if StartsWith(n, "gpt-4o") || StartsWith(n, "gpt-5") then 200000
      else if StartsWith(n, "gpt-4") then 128000
      else if StartsWith(n, "claude-3.5") || StartsWith(n, "claude-3") then 200000
      else if StartsWith(n, "gemini-1.5") then 1000000
      else if StartsWith(n, "gemini-") then 128000
      else if StartsWith(n, "ollama-") then 8000
      else DefaultLimit
  }

  /** Each family prefix, in any letter case, selects its window; the order of the checks matters only within a family. */
  lemma ContextLimitByPrefix(s: string)
    requires s != ""
    ensures var n := ToLower(s);
      && ((StartsWith(n, "gpt-4o") || StartsWith(n, "gpt-5")) ==> ContextLimit(Some(s)) == 200000)
      && (StartsWith(n, "gpt-4") && !StartsWith(n, "gpt-4o") ==> ContextLimit(Some(s)) == 128000)
      && (StartsWith(n, "claude-3") ==> ContextLimit(Some(s)) == 200000)
      && (StartsWith(n, "gemini-1.5") ==> ContextLimit(Some(s)) == 1000000)
      && (StartsWith(n, "gemini-") && !StartsWith(n, "gemini-1.5") ==> ContextLimit(Some(s)) == 128000)
      && (StartsWith(n, "ollama-") ==> ContextLimit(Some(s)) == 8000)
      && ((!StartsWith(n, "gpt-4") && !StartsWith(n, "gpt-5") && !StartsWith(n, "claude-3") && !StartsWith(n, "gemini-") && !StartsWith(n, "ollama-"))
          ==> ContextLimit(Some(s)) == DefaultLimit)
  {
    var n := ToLower(s);
    PrefixesExclusive(n, "gpt-5", "gpt-4", 4);
    PrefixesExclusive(n, "claude-3", "gpt-4", 0);
    PrefixesExclusive(n, "claude-3", "gpt-5", 0);
    PrefixesExclusive(n, "gemini-", "gpt-4", 1);
    PrefixesExclusive(n, "gemini-", "gpt-5", 1);
    PrefixesExclusive(n, "gemini-", "claude-3", 0);
    PrefixesExclusive(n, "gemini-", "claude-3.5", 0);
    PrefixesExclusive(n, "ollama-", "gpt-4", 0);
    PrefixesExclusive(n, "ollama-", "gpt-5", 0);
    PrefixesExclusive(n, "ollama-", "claude-3", 0);
    PrefixesExclusive(n, "ollama-", "claude-3.5", 0);
    PrefixesExclusive(n, "ollama-", "gemini-", 0);
    assert StartsWith(n, "gpt-4o") ==> StartsWith(n, "gpt-4");
    assert StartsWith(n, "claude-3.5") ==> StartsWith(n, "claude-3");
    assert StartsWith(n, "gemini-1.5") ==> StartsWith(n, "gemini-");
  }

  /** `Math.min(Math.max(fraction, 0.5), 0.95)`. */
  function ClampFraction(f: real): (c: real)
    ensures MinFraction <= c <= MaxFraction
    ensures MinFraction <= f <= MaxFraction ==> c == f
  {
    if f < MinFraction then MinFraction else if f > MaxFraction then MaxFraction else f
  }

  /** The floor of `limit` scaled by the clamped fraction. */
  function ScaledTrigger(limit: nat, fraction: real): (t: int)
    ensures (limit as real * MinFraction).Floor <= t <= (limit as real * MaxFraction).Floor
    ensures t as real <= limit as real * ClampFraction(fraction) < t as real + 1.0
  {
    FloorMonotone(limit as real * MinFraction, limit as real * ClampFraction(fraction));
    FloorMonotone(limit as real * ClampFraction(fraction), limit as real * MaxFraction);
    (limit as real * ClampFraction(fraction)).Floor
  }

  /** The compaction trigger: the floor of the model's limit scaled by the clamped fraction. */
  function TriggerTokens(name: Option<string>, fraction: real): (t: int)
    ensures (ContextLimit(name) as real * MinFraction).Floor <= t <= (ContextLimit(name) as real * MaxFraction).Floor
    ensures t as real <= ContextLimit(name) as real * ClampFraction(fraction) < t as real + 1.0
  {
    ScaledTrigger(ContextLimit(name), fraction)
  }

  /** The trigger with the fraction argument left out. */
  function DefaultTriggerTokens(name: Option<string>): (t: int)
    ensures t == TriggerTokens(name, DefaultFraction)
  {
    TriggerTokens(name, DefaultFraction)
  }

  lemma FloorMonotone(x: real, y: real)
    requires x <= y
    ensures x.Floor <= y.Floor
  {
  }

  /** A larger fraction never gives a smaller trigger. */
  lemma TriggerMonotone(name: Option<string>, f: real, g: real)
    requires f <= g
    ensures TriggerTokens(name, f) <= TriggerTokens(name, g)
  {
    ScaledMonotone(ContextLimit(name), f, g);
  }

  lemma ScaledMonotone(limit: nat, f: real, g: real)
    requires f <= g
    ensures ScaledTrigger(limit, f) <= ScaledTrigger(limit, g)
  {
    FloorMonotone(limit as real * ClampFraction(f), limit as real * ClampFraction(g));
  }

  /** The limit depends on the name only up to letter case. */
  lemma ContextLimitIgnoresCase(s: string)
    ensures ContextLimit(Some(s)) == ContextLimit(Some(ToLower(s)))
  {
    ToLowerIdempotent(s);
  }

  /** `gpt-5-nano` has a 200000-token window. */
  lemma ContextLimitGpt5Nano()
    ensures ContextLimit(Some("gpt-5-nano")) == 200000
  {
    var n := ToLower("gpt-5-nano");
    assert n[..5] == "gpt-5";
  }

  /** Upper-case letters do not matter: `GPT-4-Turbo` is a plain gpt-4 model with 128000. */
  lemma ContextLimitUpperCase()
    ensures ContextLimit(Some("GPT-4-Turbo")) == 128000
  {
    var n := ToLower("GPT-4-Turbo");
    assert n[..5] == "gpt-4";
    assert n[5] == '-';
    ContextLimitByPrefix("GPT-4-Turbo");
  }

  /** `gemini-1.5-pro` has the one-million window, checked before the generic gemini prefix. */
  lemma ContextLimitGemini15()
    ensures ContextLimit(Some("gemini-1.5-pro")) == 1000000
  {
    var n := ToLower("gemini-1.5-pro");
    assert n[..10] == "gemini-1.5";
    ContextLimitByPrefix("gemini-1.5-pro");
  }

  /** `gpt-5-nano` triggers at 100000 with fraction 0.5 and at 160000 with the default fraction. */
  lemma TriggerExamples()
    ensures TriggerTokens(Some("gpt-5-nano"), 0.5) == 100000
    ensures DefaultTriggerTokens(Some("gpt-5-nano")) == 160000
  {
    ContextLimitGpt5Nano();
    assert (200000 as real * 0.5).Floor == 100000;
    assert (200000 as real * 0.8).Floor == 160000;
  }

  /** An out-of-range fraction is clamped: 2.0 acts as 0.95 on the default window. */
  lemma TriggerClampExample()
    ensures TriggerTokens(None, 2.0) == 121600
  {
    assert (128000 as real * 0.95).Floor == 121600;
  }
}
