/**
 * The per-request model settings: sequential tool calls, text verbosity raised to
 * medium for the models that refuse low verbosity, and the service tier.
 */
module ModelSettings {
  import opened Wrappers
  import opened Strings
  import Deprecations

  datatype Verbosity = Low | Medium
  datatype ServiceTier = Flex | AutoTier

  datatype Settings = Settings(parallelToolCalls: bool, verbosity: Verbosity, serviceTier: ServiceTier)

  /** The parts of the tracked state the settings read; a name is `None` while it is `null`. */
  datatype Tracked = Tracked(model: Option<string>, compactionModel: Option<string>, useFlexTier: bool)

  /** `modelsRequiringMediumVerbosity`. */
  const MediumVerbosityModels: seq<string> := ["gpt-4o", "gpt-5"]

  /** `a || b` over nullable names: `a` when it is a non-empty string, else `b`. */
  function OrName(a: Option<string>, b: Option<string>): (r: Option<string>)
    ensures r == a || r == b
    ensures a.Some? && a.value != "" ==> r == a
  {
    if a.Some? && a.value != "" then a else b
  }

  /** Whether the lower-cased name contains one of `models`, itself lower-cased. */
  function MentionsAny(lowered: string, models: seq<string>): (r: bool)
    ensures r <==> exists i :: 0 <= i < |models| && Contains(lowered, ToLower(models[i]))
    decreases |models|
  {
    if |models| == 0 then false
    else
      assert forall i :: 1 <= i < |models| ==> models[i] == models[1..][i - 1];
      Contains(lowered, ToLower(models[0])) || MentionsAny(lowered, models[1..])
  }

  function VerbosityFor(name: string): Verbosity {
    if MentionsAny(ToLower(name), MediumVerbosityModels) then Medium else Low
  }

  /**
   * `getModelSettings(modelName)`: the name is `modelName || trackedState.model`. `None`
   * when that is `null`, where `toLowerCase` throws.
   */
  function GetModelSettings(modelName: Option<string>, t: Tracked): (r: Option<Settings>)
    ensures r.None? <==> OrName(modelName, t.model).None?
    ensures r.Some? ==> !r.value.parallelToolCalls
    ensures r.Some? ==> (r.value.serviceTier == Flex <==> t.useFlexTier)
    ensures r.Some? ==> r.value.verbosity == VerbosityFor(OrName(modelName, t.model).value)
  {
    match OrName(modelName, t.model)
    case None => None
    case Some(name) => Some(Settings(false, VerbosityFor(name), if t.useFlexTier then Flex else AutoTier))
  }

  /**
   * `getCompactionModelSettings(modelName)`: the base settings for
   * `modelName || trackedState.compactionModel`, with verbosity always medium.
   */
  function GetCompactionModelSettings(modelName: Option<string>, t: Tracked): (r: Option<Settings>)
    ensures r.Some? ==> r.value.verbosity == Medium
  {
    match GetModelSettings(OrName(modelName, t.compactionModel), t)
    case None => None
    case Some(base) => Some(base.(verbosity := Medium))
  }

  // ---- properties ----

  lemma LowerLiterals()
    ensures ToLower("gpt-4o") == "gpt-4o" && ToLower("gpt-5") == "gpt-5"
  {
  }

  /** Verbosity is medium exactly when the lower-cased name mentions gpt-4o or gpt-5. */
  lemma MediumIff(name: string)
    ensures VerbosityFor(name) == Medium <==>
      Contains(ToLower(name), "gpt-4o") || Contains(ToLower(name), "gpt-5")
  {
    LowerLiterals();
    if Contains(ToLower(name), "gpt-4o") {
      assert Contains(ToLower(name), ToLower(MediumVerbosityModels[0]));
    }
    if Contains(ToLower(name), "gpt-5") {
      assert Contains(ToLower(name), ToLower(MediumVerbosityModels[1]));
    }
  }

  /** With no name given, the tracked model decides; a given name wins over it. */
  lemma NameFallback(t: Tracked, name: string)
    ensures GetModelSettings(None, t) == GetModelSettings(t.model, t)
    ensures name != "" ==> GetModelSettings(Some(name), t) == GetModelSettings(Some(name), t.(model := None))
  {
  }

  /**
   * Compaction settings equal the base settings for the compaction name except for the
   * verbosity, and the chain of names ends at the tracked model.
   */
  lemma CompactionDiffersOnlyInVerbosity(modelName: Option<string>, t: Tracked)
    ensures GetCompactionModelSettings(modelName, t).Some? <==>
      OrName(OrName(modelName, t.compactionModel), t.model).Some?
    ensures GetCompactionModelSettings(modelName, t).Some? ==>
      GetCompactionModelSettings(modelName, t).value ==
      GetModelSettings(OrName(modelName, t.compactionModel), t).value.(verbosity := Medium)
  {
  }

  /** Every name the deprecation rules redirect, and every replacement, asks for medium verbosity. */
  lemma RedirectedNamesNeedMedium(name: string)
    requires Deprecations.GetDeprecatedReplacement(Some(name)).Some?
    ensures VerbosityFor(name) == Medium
    ensures VerbosityFor(Deprecations.GetDeprecatedReplacement(Some(name)).value.replacement) == Medium
  {
    assert Deprecations.Matches(Deprecations.Gpt4oRule, name);
    ContainsPrefix(ToLower(name), "gpt-4o");
    MediumIff(name);
    var nano := "gpt-5-nano";
    assert StartsWith(ToLower(nano), "gpt-5");
    ContainsPrefix(ToLower(nano), "gpt-5");
    MediumIff(nano);
  }
}
