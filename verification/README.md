# harper-agent core, modelled in Dafny

This project models the core of harper-agent, a terminal coding assistant that drives a
language model through a loop of tool calls: it reads and edits files in a workspace, runs
shell commands, keeps a conversation history and a plan, and shows all of it in an Ink
terminal UI. The model covers six parts of the program. Each is a group of Dafny modules
made of immutable datatypes and pure functions, with lemmas that relate the operations.

- **Conversation store.**
  - `DiskSession` is the JSON-file session with its plan and skills.
  - `MemoryCompaction` is the compaction wrapper, with its timestamps and the sanitising of
    private fields.
  - `Compaction` is the summarising history compaction.
  - `TokenEstimate`, `ContextLimits`, `Timestamps` and `ExcludeFalsy` are the helpers these
    use.
- **Workspace edits and approval gates.**
  - `Paths` resolves workspace paths.
  - `NormalizeDiff` and `ApplyPatch` handle the patch tool.
  - `WorkspaceEditor` is the file editor.
  - `ToolApproval`, `AutoApprove` and `ShellTool` decide on approvals.
- **Rate limits and errors.**
  - `RateLimits` tracks the header-driven limits.
  - `ShowError` and `StreamEvents` cover error display and stream-event classification.
- **Turn execution.**
  - `OnePass` is the single-pass runner, with its cost ceiling and interruptions.
  - `AgentManager` is the interactive run loop, with approvals.
- **Configuration.**
  - `ParseArgs`, `Deprecations`, `UpdateEnv`, `EnvVars`, `ProviderEnv`, `GetModel`,
    `ModelSettings`, `EnsureApiKey`, `PackageManager` and `Cli`.
- **UI state.**
  - `ChatContext`, `ShellContext`, `PlanContext` and `UiEvents` hold the UI's state.
  - `TextInput` is the prompt input.
  - `VirtualList` is the scrolled list window.
  - `WrapText` does the line wrapping.

JavaScript values are modelled by `JsValues`, and insertion-ordered objects by `OrderedMaps`.
Everything the program takes from outside becomes a parameter of the functions that need it:

- the language model's summaries, the JSON serialiser, the clock and the cost tables;
- the `.aiignore` matcher, the diff applier and the terminal size;
- the contents of the environment and of files.

## Model

| member | source | states |
|---|---|---|
| EnvVars.GetEnv | tools/files/applyPatchTool.ts:82 | a setting is present exactly when its current or its legacy name is set, and the current name wins when both are |
| EnvVars.GetEnvAfterSet | tools/general/setPatchAutoApproveTool.ts:19-27 | once the current name is written, every later read returns the written value whatever the legacy name holds |
| Arrays.FilterTruthy | utils/arrays/excludeFalsy.ts:1-3 | filtering keeps only truthy elements, invents none, and leaves an all-truthy list unchanged |
| Arrays.ExcludeFalsy | utils/arrays/excludeFalsy.ts:1-3 | a value is dropped exactly when it is undefined, null, false, the empty string, zero or NaN |
| Arrays.FilterAppend | utils/arrays/excludeFalsy.ts:1-3 | filtering distributes over concatenation, so kept elements keep their order |
| Arrays.FilterKeepsTruthy | utils/arrays/excludeFalsy.ts:1-3 | every truthy element of the input survives the filter |
| Arrays.FilterIdempotent | utils/arrays/excludeFalsy.ts:1-3 | filtering a filtered list changes nothing |
| Arrays.FilterCons | utils/arrays/excludeFalsy.ts:1-3 | the head is kept exactly when it is truthy, in front of the filtered tail |
| Arrays.FilterExample | utils/arrays/excludeFalsy.ts:1-3 | 0, '', false, null and undefined are all removed and two truthy values stay in order |
| ProviderEnv.EnvVarForProvider | utils/files/getEnvVarForProvider.ts:3-14 | every provider has a non-empty variable, and it is the base-URL variable exactly for Ollama |
| ProviderEnv.EnvVarInjective | utils/files/getEnvVarForProvider.ts:3-14 | no two providers share a variable |
| ProviderEnv.ApiKeyVarAgrees | agent/AgentManager.ts:28-32 | the agent manager stores a supplied key under the same variable as the lookup for the three hosted providers, and under none for Ollama |
| Timestamps.FiniteStamp | utils/sessions/getLastAddedTimestamp.ts:6-7 | a stamp is read exactly when the nested field holds a finite number, and then it is that number |
| Timestamps.LastAddedTimestamp | utils/sessions/getLastAddedTimestamp.ts:3-8 | a non-array or an empty array gives null; otherwise the answer is the last item's finite stamp |
| Timestamps.OnlyLastConsulted | utils/sessions/getLastAddedTimestamp.ts:5-7 | the items before the last one never affect the answer |
| Timestamps.EarlierStampIgnored | utils/sessions/getLastAddedTimestamp.ts:5-7 | a stamped earlier item does not help when the last item has no stamp |
| Timestamps.NonFiniteStampIgnored | utils/sessions/getLastAddedTimestamp.ts:7 | a string, an infinite or a NaN stamp reads as null |
| DiskSession.Load | utils/sessions/DiskSession.ts:82-97 | a missing or unparsable file reads as empty storage, and a missing sessions record as an empty one |
| DiskSession.Save | utils/sessions/DiskSession.ts:99-111 | the file written reads back as exactly the storage that was written |
| DiskSession.GetSkillsRead | utils/sessions/DiskSession.ts:191-196 | a missing or unreadable file, or one without a skills record, reports no skills read |
| DiskSession.GetPlanState | utils/sessions/DiskSession.ts:198-203 | a missing or unreadable file, or one without a plan record, reports no plan |
| DiskSession.Candidate | utils/sessions/DiskSession.ts:36-51 | the adopted id is the first session key, else the first plan key, else the first skills key, and there is none exactly when all three records are empty |
| DiskSession.MemoryId | utils/sessions/DiskSession.ts:33-56 | a non-empty requested id is kept; with no id requested and nothing to adopt the generated id stays |
| DiskSession.InitKey | utils/sessions/DiskSession.ts:58-61 | the key used while opening is never empty and is the store's id whenever that is non-empty |
| DiskSession.Init | utils/sessions/DiskSession.ts:28-80 | as written: the reported id is the memory store's id, while the items come from the file record under the fallback key, or are the initial items |
| DiskSession.InitFixed | utils/sessions/DiskSession.ts:28-80 | corrected: the store's id is the non-empty key used while opening, and memory agrees with the file afterwards |
| DiskSession.InitWithId | utils/sessions/DiskSession.ts:63-79 | an existing record is loaded and the file left alone; otherwise non-empty initial items are persisted under the key |
| DiskSession.AddItems | utils/sessions/DiskSession.ts:124-139 | items are appended in memory and to the session's record (created if missing); other sessions, skills and plans are untouched |
| DiskSession.PopItem | utils/sessions/DiskSession.ts:141-159 | the last item is removed from memory and returned; the file loses its last item only when the popped item is truthy |
| DiskSession.ClearSession | utils/sessions/DiskSession.ts:161-179 | memory is emptied and the session's items, skills and plan are deleted from the file; other sessions are untouched |
| DiskSession.ReplaceItems | utils/sessions/MemoryCompactionSession.ts:150-152 | the session's items become the given list in memory and in the file, skills and plan untouched |
| DiskSession.AddSkillRead | utils/sessions/DiskSession.ts:181-196 | the skill is recorded once: appended when new, otherwise the record is unchanged; items and plans untouched |
| DiskSession.MergePlan | utils/sessions/DiskSession.ts:210-216 | given fields override the stored plan (or the default plan), and only a given item list replaces the items |
| DiskSession.SetPlanState | utils/sessions/DiskSession.ts:198-218 | the plan read back is the merge of the patch over the stored or default plan; items and skills untouched |
| DiskSession.AddSkillReadIdempotent | utils/sessions/DiskSession.ts:187 | recording a skill twice leaves the record of recording it once |
| DiskSession.AddSkillReadKeepsDistinct | utils/sessions/DiskSession.ts:187 | a skills record without repeats keeps having none |
| DiskSession.PlanRoundTrip | utils/sessions/DiskSession.ts:198-218 | a full plan stored is read back unchanged, by this store and by a fresh one opened on the same file with the same id |
| DiskSession.PlanSurvivesReopenWithoutId | utils/sessions/DiskSession.ts:36-56 | a plan stored by a store opened without an id is found by a second such store, which adopts the plan key |
| DiskSession.AddItemsKeepsSynced | utils/sessions/DiskSession.ts:124-139 | appending keeps memory and file in agreement |
| DiskSession.ClearKeepsSynced | utils/sessions/DiskSession.ts:161-179 | clearing keeps memory and file in agreement |
| DiskSession.PopTruthyKeepsSynced | utils/sessions/DiskSession.ts:146-156 | popping a truthy item keeps memory and file in agreement |
| DiskSession.PopFalsyDesyncs | utils/sessions/DiskSession.ts:146-156 | popping a falsy item leaves it in the file, so memory and file disagree afterwards |
| DiskSession.ReopenRestoresItems | utils/sessions/DiskSession.ts:63-69 | a store in agreement with its file is restored exactly by a fresh store opened with its id |
| DiskSession.EmptyIdLosesItems | utils/sessions/DiskSession.ts:58-61 | as written, with an empty id the initial item goes under the fallback key and a later item under the empty key, so a reopened store sees only the first |
| DiskSession.EmptyIdKeepsItemsFixed | utils/sessions/DiskSession.ts:58-61 | with the fallback id recorded as the store's id, the reopened store sees both items |
| OrderedMaps.FirstKey | utils/sessions/DiskSession.ts:38-40 | there is a first key exactly when the record has keys, and it is one of them |
| OrderedMaps.Put | utils/sessions/DiskSession.ts:76 | an assignment sets the key, leaves every other key's value alone, keeps an existing key in place and appends a new one |
| OrderedMaps.Remove | utils/sessions/DiskSession.ts:171-177 | a deletion removes the key and leaves every other key's value alone |
| OrderedMaps.RemoveKeyFacts | utils/sessions/DiskSession.ts:171-177 | removing a key from a repeat-free key list leaves exactly the other keys, still without repeats |
| MemoryCompaction.UnderlyingAdd | utils/sessions/MemoryCompactionSession.ts:93 | the wrapped store's items gain the given items at the end |
| MemoryCompaction.UnderlyingClear | utils/sessions/MemoryCompactionSession.ts:106 | the wrapped store is left with no items |
| MemoryCompaction.Create | utils/sessions/MemoryCompactionSession.ts:31-37 | there is a trigger exactly when a compaction model is configured, computed from that model and the given fraction or one half; counters start at zero |
| MemoryCompaction.Stamp | utils/sessions/MemoryCompactionSession.ts:85-92 | the copy carries the time as a finite stamp and every other field at each of the three levels is kept |
| MemoryCompaction.DropKey | utils/sessions/MemoryCompactionSession.ts:164-171 | the key is gone and every other key keeps its value |
| MemoryCompaction.Sanitize | utils/sessions/MemoryCompactionSession.ts:158-186 | non-objects pass through; an object loses its top-level private key |
| MemoryCompaction.SanitizeKeepsOtherFields | utils/sessions/MemoryCompactionSession.ts:158-186 | every top-level field other than the private key and the provider data is kept |
| MemoryCompaction.SanitizeProviderData | utils/sessions/MemoryCompactionSession.ts:167-184 | the private key inside object provider data is removed, its other keys kept, and provider data left empty is dropped; non-object provider data is kept |
| MemoryCompaction.DropAbsentKey | utils/sessions/MemoryCompactionSession.ts:162-165 | dropping a key that is not there changes nothing |
| MemoryCompaction.SanitizeIdempotent | utils/sessions/MemoryCompactionSession.ts:158-186 | sanitising twice is sanitising once |
| MemoryCompaction.SanitizedHasNoStamp | utils/sessions/MemoryCompactionSession.ts:158-186 | a sanitised item has no readable added-at stamp |
| MemoryCompaction.SanitizeUndoesStamp | utils/sessions/MemoryCompactionSession.ts:85-186 | stamping an item without private metadata and sanitising it gives the item back |
| MemoryCompaction.GetItems | utils/sessions/MemoryCompactionSession.ts:63-67 | readers get every stored item, in order, sanitised |
| MemoryCompaction.LatestAddedTimestamp | utils/sessions/MemoryCompactionSession.ts:73-79 | null for an empty store, otherwise the unsanitised last item's finite stamp |
| MemoryCompaction.RunCompaction | utils/sessions/MemoryCompactionSession.ts:123-155 | the result is always null; with the gate closed nothing changes; with it open the store holds the truthy compacted items and the counter is reset |
| MemoryCompaction.IsForced | utils/sessions/MemoryCompactionSession.ts:132 | only an object argument can force compaction, and a truthy `force` field always does |
| MemoryCompaction.Compacts | utils/sessions/MemoryCompactionSession.ts:127-143 | the gate opens only for more than four items, and then always when forced or when no positive trigger is set |
| MemoryCompaction.UnderlyingReplace | utils/sessions/MemoryCompactionSession.ts:150-152 | the store holds exactly the given items and a disk store keeps its plan and skills |
| MemoryCompaction.RunCompactionKeepingPlan | utils/sessions/MemoryCompactionSession.ts:145-154 | corrected: readers see the same history as after the written compaction, while a disk store keeps its plan and skills |
| MemoryCompaction.AddItems | utils/sessions/MemoryCompactionSession.ts:81-98 | the items are appended stamped with one time, and the automatic compaction check runs on the result |
| MemoryCompaction.StampAll | utils/sessions/MemoryCompactionSession.ts:93-94 | the added-since counter grows by the number of items appended |
| MemoryCompaction.PopItem | utils/sessions/MemoryCompactionSession.ts:100-102 | the last stored item is removed and returned; an empty store returns nothing |
| MemoryCompaction.ClearSession | utils/sessions/MemoryCompactionSession.ts:104-107 | readers see no items and the counter is zero |
| MemoryCompaction.AddSkillRead | utils/sessions/MemoryCompactionSession.ts:43-49 | the skill is among those read afterwards, whichever store records it |
| MemoryCompaction.GetSkillsRead | utils/sessions/MemoryCompactionSession.ts:51-61 | the answer holds exactly the store's and the local skills, each once |
| MemoryCompaction.Dedup | utils/sessions/MemoryCompactionSession.ts:59-60 | the same members without repeats, and a repeat-free list unchanged |
| MemoryCompaction.DedupKeeps | utils/sessions/MemoryCompactionSession.ts:59-60 | no member is lost by removing repeats |
| MemoryCompaction.GetItemsHidesMetadata | utils/sessions/MemoryCompactionSession.ts:63-67 | no item a reader sees carries the private key at the top level or in its provider data |
| MemoryCompaction.SmallHistoryUnchanged | utils/sessions/MemoryCompactionSession.ts:127-143 | a history of at most four items is never rewritten, forced or not |
| MemoryCompaction.BelowTriggerUnchanged | utils/sessions/MemoryCompactionSession.ts:132-138 | below a positive trigger only a forced call rewrites |
| MemoryCompaction.SanitizeSystemMessage | utils/sessions/MemoryCompactionSession.ts:158-186 | the notice item has nothing to remove |
| MemoryCompaction.CompactedItems | utils/sessions/MemoryCompactionSession.ts:145-152 | after a rewrite readers see the truthy compacted items, sanitised |
| MemoryCompaction.ReadItemsTruthy | utils/sessions/MemoryCompactionSession.ts:63-67 | reading keeps every truthy stored item truthy |
| MemoryCompaction.ResanitizedShape | utils/sessions/MemoryCompactionSession.ts:63-152 | sanitising the rewritten notice and recent items again changes none of them |
| MemoryCompaction.ForcedCompactionShape | utils/sessions/MemoryCompactionSession.ts:123-155 | a forced compaction of more than four truthy items leaves exactly the notice and the last three items |
| MemoryCompaction.LastCompactedItem | utils/sessions/compactConversation.ts:18-66 | the rewritten history is non-empty and its last item carries no stamp when the recent items carry none |
| MemoryCompaction.CompactionClearsTimestamp | utils/sessions/MemoryCompactionSession.ts:73-152 | after a rewrite the latest-added time reads as null |
| MemoryCompaction.AppendSetsTimestamp | utils/sessions/MemoryCompactionSession.ts:81-98 | an append that does not trigger a rewrite makes the append time the latest-added time |
| MemoryCompaction.NoModelCompactsEveryLongHistory | utils/sessions/MemoryCompactionSession.ts:33-141 | without a compaction model any history longer than four items is rewritten after an append, leaving at most four |
| MemoryCompaction.CompactionOnDiskDropsPlan | utils/sessions/MemoryCompactionSession.ts:150 | as written, a compaction over the disk store deletes the session's persisted plan (together with utils/sessions/DiskSession.ts:175-177) |
| Compaction.SplitPoint | utils/sessions/compactConversation.ts:21-22 | the cut leaves min(3, n) items after it |
| Compaction.RecentItems | utils/sessions/compactConversation.ts:21 | the recent items are the last min(3, n) items in order |
| Compaction.ItemsToCompact | utils/sessions/compactConversation.ts:22 | the items to compact followed by the recent items are the whole history |
| Compaction.SummariserInput | utils/sessions/compactConversation.ts:26-43 | the summariser is called exactly when a compaction model is set and more than three items exist, and it receives all but the last three |
| Compaction.NoticeFor | utils/sessions/compactConversation.ts:24-48 | a non-blank summary gives the header followed by the trimmed summary; a failure or a blank summary leaves the default notice |
| Compaction.CompactConversation | utils/sessions/compactConversation.ts:18-66 | the notice is the default unless a summary was requested and usable; the items are the notice followed by the truthy recent items |
| Compaction.NoticeShape | utils/sessions/compactConversation.ts:24-47 | the notice is the default or starts with the summary header |
| Compaction.FailedSummaryKeepsDefault | utils/sessions/compactConversation.ts:45-58 | a summariser that fails or returns only whitespace leaves the default notice |
| Compaction.CompactedShape | utils/sessions/compactConversation.ts:21-64 | with truthy items the rewritten history is the notice and exactly the last three items |
| Compaction.EarlierItemsDropped | utils/sessions/compactConversation.ts:21-64 | no item before the recent tail survives, the first one included, unless it reappears in the tail or equals the notice |
| Compaction.SummariserInputExample | utils/sessions/compactConversation.ts:22-26 | of seven items the summariser gets the first four; without a model or with three items it is not called |
| TokenEstimate.PartChars | utils/models/estimateTokens.ts:11-18 | a falsy part counts nothing; otherwise its text, else its content, else the part itself as a string |
| TokenEstimate.ItemChars | utils/models/estimateTokens.ts:9-32 | a falsy item counts nothing; an item counts at least its string content and its text |
| TokenEstimate.CeilQuarter | utils/models/estimateTokens.ts:34 | the result is the least count whose fourfold reaches the characters |
| TokenEstimate.EstimateTokens | utils/models/estimateTokens.ts:4-35 | the estimate is the ceiling of a quarter of all counted characters, tool calls and results included, and zero for no items |
| TokenEstimate.EstimateTokensLocal | utils/sessions/MemoryCompactionSession.ts:189-211 | the session's estimate is the ceiling of a quarter of the text characters only, and zero for no items |
| TokenEstimate.CharsAppend | utils/models/estimateTokens.ts:8-33 | character counts add up over concatenation |
| TokenEstimate.CeilQuarterMonotone | utils/models/estimateTokens.ts:34 | more characters never give fewer tokens |
| TokenEstimate.EstimateMonotone | utils/models/estimateTokens.ts:4-35 | appending items never lowers the estimate |
| TokenEstimate.FalsyItemAddsNothing | utils/models/estimateTokens.ts:9 | a falsy item adds nothing |
| TokenEstimate.LocalAtMostGeneral | utils/sessions/MemoryCompactionSession.ts:189-211 | the session's estimate never exceeds the general one (together with utils/models/estimateTokens.ts:4-35) |
| TokenEstimate.LocalEqualsGeneralWithoutCalls | utils/sessions/MemoryCompactionSession.ts:189-211 | without tool calls or results the two estimates agree (together with utils/models/estimateTokens.ts:26-32) |
| TokenEstimate.CharsSameWithoutCalls | utils/models/estimateTokens.ts:26-32 | without tool calls or results the two character counts agree |
| TokenEstimate.EstimateExample | utils/models/estimateTokens.ts:20-34 | four characters of content and one of text make two tokens |
| ContextLimits.ContextLimit | utils/sessions/modelContextLimits.ts:4-25 | the limit is one of the four windows, and the default for a missing or empty name |
| ContextLimits.ContextLimitByPrefix | utils/sessions/modelContextLimits.ts:6-24 | each family prefix, in any letter case, selects its window, with the more specific prefix checked first |
| ContextLimits.ClampFraction | utils/sessions/modelContextLimits.ts:30 | the fraction is clamped to [0.5, 0.95] and kept when already inside |
| ContextLimits.TriggerTokens | utils/sessions/modelContextLimits.ts:27-32 | the trigger is the floor of the limit times the clamped fraction, so between half and 95% of the window |
| ContextLimits.DefaultTriggerTokens | utils/sessions/modelContextLimits.ts:27 | leaving the fraction out means a fraction of 0.8 |
| ContextLimits.FloorMonotone | utils/sessions/modelContextLimits.ts:31 | the floor never decreases |
| ContextLimits.TriggerMonotone | utils/sessions/modelContextLimits.ts:27-32 | a larger fraction never gives a smaller trigger |
| ContextLimits.ContextLimitIgnoresCase | utils/sessions/modelContextLimits.ts:6 | the limit depends on the name only up to letter case |
| ContextLimits.ContextLimitGpt5Nano | utils/sessions/modelContextLimits.ts:9 | gpt-5-nano has a 200000-token window |
| ContextLimits.ContextLimitUpperCase | utils/sessions/modelContextLimits.ts:6-11 | GPT-4-Turbo is a gpt-4 model with 128000 |
| ContextLimits.ContextLimitGemini15 | utils/sessions/modelContextLimits.ts:17-19 | gemini-1.5-pro gets the one-million window before the generic gemini prefix applies |
| ContextLimits.TriggerExamples | utils/sessions/modelContextLimits.ts:27-32 | gpt-5-nano triggers at 100000 with fraction 0.5 and at 160000 by default |
| ContextLimits.TriggerClampExample | utils/sessions/modelContextLimits.ts:30-34 | a fraction of 2.0 acts as 0.95 on the default window |
| NormalizeDiff.DropCarriageReturn | utils/files/normalizeDiff.ts:8 | at most one trailing carriage return is removed, and one is removed exactly when the line ends with it |
| NormalizeDiff.SplitLines | utils/files/normalizeDiff.ts:8 | there are as many pieces as line feeds plus one, and no piece contains a line feed |
| NormalizeDiff.KeepLines | utils/files/normalizeDiff.ts:9-31 | exactly the non-header lines are kept, and a list without header lines is unchanged |
| NormalizeDiff.Normalize | utils/files/normalizeDiff.ts:6-34 | the result is no longer than the rejoined kept lines and neither starts nor ends with whitespace |
| NormalizeDiff.KeepLinesAppend | utils/files/normalizeDiff.ts:9-31 | the filter keeps the relative order of lines |
| NormalizeDiff.KeepLinesSingle | utils/files/normalizeDiff.ts:10-30 | a single line is dropped exactly when its trimmed text starts with a marker or an operation header |
| NormalizeDiff.SplitPiecesFrom | utils/files/normalizeDiff.ts:8 | a split introduces no character that was not in the text |
| NormalizeDiff.SplitLinesWithoutCarriageReturn | utils/files/normalizeDiff.ts:8-32 | without carriage returns, splitting is a plain split at line feeds and joining undoes it |
| NormalizeDiff.SplitLinesOfJoin | utils/files/normalizeDiff.ts:8-32 | lines joined with line feeds split back into the same lines |
| NormalizeDiff.NormalizeJoinedLines | utils/files/normalizeDiff.ts:6-34 | a diff given as lines becomes the non-header lines, in order, rejoined and trimmed as a whole |
| NormalizeDiff.CleanDiffUnchanged | utils/files/normalizeDiff.ts:6-34 | a diff with no header line and nothing to trim passes through unchanged |
| NormalizeDiff.HeaderOfUntrimmed | utils/files/normalizeDiff.ts:10-29 | for a line with nothing to trim the header test is a plain prefix test |
| NormalizeDiff.NotHeaderByFirstChar | utils/files/normalizeDiff.ts:12-29 | a line whose first character starts no marker and no header is kept |
| NormalizeDiff.TwoCleanLines | utils/files/normalizeDiff.ts:6-34 | two clean lines pass through unchanged |
| NormalizeDiff.LineBetweenHeaders | utils/files/normalizeDiff.ts:6-34 | a line between two header lines is all that remains |
| NormalizeDiffExamples.EnvelopeMarkersAreHeaders | utils/files/normalizeDiff.ts:10-14 | the begin and end markers are headers, also when indented |
| NormalizeDiffExamples.MarkersHaveNoBreaks | utils/files/normalizeDiff.test.ts:5-11 | the markers are single lines |
| NormalizeDiffExamples.AddedMarkerIsNotHeader | utils/files/normalizeDiff.test.ts:49-53 | an added line that contains a marker after its plus sign is not a header |
| NormalizeDiffExamples.PlainAddedLine | utils/files/normalizeDiff.test.ts:5-11 | an added single line with nothing to trim is kept |
| NormalizeDiffExamples.AddedMarkerKept | utils/files/normalizeDiff.test.ts:49-53 | the added marker line and the added content after it survive unchanged |
| NormalizeDiffExamples.EnvelopeLines | utils/files/normalizeDiff.test.ts:5-11 | the envelope's outer lines are headers and its middle line is not |
| NormalizeDiffExamples.EnvelopeRemoved | utils/files/normalizeDiff.test.ts:5-11 | the begin and end markers around any single added line are removed |
| UpdateEnv.FirstMatch | utils/files/updateEnv.ts:20-21 | the match found is the leftmost line start holding `KEY=` at or after the position, and none means there is no such line |
| UpdateEnv.LineEnd | utils/files/updateEnv.ts:20 | the rest of the line ends at the first line terminator or at the end of the text |
| UpdateEnv.UpdateContent | utils/files/updateEnv.ts:20-28 | with a matching line, only the first such line from `KEY=` to its end is replaced by the entry |
| UpdateEnv.Update | utils/files/updateEnv.ts:11-31 | the process variable is set, and a missing file is treated as empty text |
| UpdateEnv.NoMatchAcrossTerminator | utils/files/updateEnv.ts:20 | `KEY=` cannot match across a line break when the key has none |
| UpdateEnv.NoEarlierMatch | utils/files/updateEnv.ts:20-27 | a text that agrees with a match-free text up to a line break has no match before it |
| UpdateEnv.FirstMatchIs | utils/files/updateEnv.ts:20-21 | a match with none before it is the first match |
| UpdateEnv.LineEndIs | utils/files/updateEnv.ts:20 | the end of the line is the first terminator position |
| UpdateEnv.EntryInPlace | utils/files/updateEnv.ts:22 | writing the entry over a line that already holds it changes nothing |
| UpdateEnv.ReplacedStaysFirst | utils/files/updateEnv.ts:21-22 | after a replacement the first match is where it was |
| UpdateEnv.AppendedAt | utils/files/updateEnv.ts:24-27 | an entry appended after a line break, or to empty text, is the first match |
| UpdateEnv.AppendedIsFirst | utils/files/updateEnv.ts:23-28 | after an append the first match is the appended entry |
| UpdateEnv.UpdateIdempotent | utils/files/updateEnv.ts:11-31 | writing the same setting twice leaves the file as after the first write |
| UpdateEnv.RewriteFixedPoint | utils/files/updateEnv.ts:20-28 | the updated text has a first match, and rewriting there gives the same text |
| UpdateEnv.EntryAt | utils/files/updateEnv.ts:22 | a text that is its own rewrite holds the entry there as a whole line |
| UpdateEnv.HasEntryLine | utils/files/updateEnv.ts:20-28 | after the update the first line starting with `KEY=` is exactly `KEY=value` |
| UpdateEnv.AppendKeepsText | utils/files/updateEnv.ts:23-28 | a text without the setting that ends in a line feed keeps all its text and gains the entry line at the end |
| UpdateEnv.UpdatedHasLine | utils/files/updateEnv.ts:11-31 | after the update the file holds the line `KEY=value` |
| UpdateEnv.EntryHasNoTerminator | utils/files/updateEnv.ts:22-27 | an entry built from a key and value without line breaks is a single line |
| UpdateEnv.KeysDisagree | utils/files/updateEnv.ts:20 | two different keys without `=` cannot both start a line at the same place |
| UpdateEnv.LineKeptInPrefix | utils/files/updateEnv.ts:22 | a line that ends before the changed part survives |
| UpdateEnv.LineKeptInSuffix | utils/files/updateEnv.ts:22 | a line after the changed part survives, shifted |
| UpdateEnv.AppendKeepsLine | utils/files/updateEnv.ts:23-28 | appending another setting keeps every existing line |
| UpdateEnv.ReplaceAfterKeepsLine | utils/files/updateEnv.ts:21-22 | replacing a later line keeps an earlier one in place |
| UpdateEnv.ReplaceBeforeKeepsLine | utils/files/updateEnv.ts:21-22 | replacing an earlier line keeps a later one, shifted by the change in length |
| UpdateEnv.OtherUpdateKeepsLine | utils/files/updateEnv.ts:11-31 | writing one setting keeps the line of another, whether it replaced a line or was appended |
| Paths.Step | utils/files/paths.ts:12 | one segment of resolution keeps the path normal, goes up one level for `..` (never above the root directory) and otherwise only descends |
| Paths.Walk | utils/files/paths.ts:12 | resolving a list of segments keeps the path normal |
| Paths.Resolve | utils/files/paths.ts:12 | the resolved path is normal: no empty, `.` or `..` segment |
| Paths.CommonLength | utils/files/paths.ts:13 | the shared prefix of two paths is as long as possible |
| Paths.ResolvePath | utils/files/paths.ts:11-24 | as written: a path is accepted exactly when it lies inside the root, its first segment below the root does not start with `..`, and it is not ignored; it is refused as outside exactly when it is not inside or that segment starts with `..`, and otherwise as ignored |
| Paths.ResolvePathFixed | utils/files/paths.ts:11-24 | corrected: a path is accepted exactly when it lies inside the root and is not ignored, and it is refused as outside exactly when it is not inside |
| Paths.CommonLengthOfPrefix | utils/files/paths.ts:13 | a path under the root shares the whole root |
| Paths.JoinStartsWithFirst | utils/files/paths.ts:13 | a joined path starts with its first part |
| Paths.LeadingSegment | utils/files/paths.ts:15 | a relative form starts with `..` exactly when its first segment does, without that segment being `..` itself |
| Paths.RelativeShape | utils/files/paths.ts:13 | the relative form is empty or its first segment followed by separator-led text |
| Paths.RelativeOfDescendant | utils/files/paths.ts:13 | the relative form of a path under the root is the remaining segments |
| Paths.RelativeOfOutside | utils/files/paths.ts:13 | the relative form of a path outside the root starts by going up |
| Paths.RelativeLeadsUp | utils/files/paths.ts:13-15 | the relative form starts with `..` exactly when the path is outside the root or its first segment below the root starts with `..` |
| Paths.RelativeGoesUp | utils/files/paths.ts:13-15 | the first segment of the relative form is `..` exactly when the path is outside the root |
| Paths.WalkDescends | utils/files/paths.ts:12 | without `..` segments a relative path never leaves its base |
| Paths.FixedAcceptsExactlyInside | utils/files/paths.ts:11-24 | corrected: every accepted path lies inside the root, and every inside path that is not ignored is accepted |
| Paths.DescendingPathInside | utils/files/paths.ts:12 | a relative path without `..` segments stays inside the root |
| Paths.ResolveDot | utils/files/paths.ts:12-23 | `.` resolves to the root, which is accepted when not ignored |
| Paths.DotDotNamedChildRefused | utils/files/paths.ts:15-16 | as written, a child literally named `..foo` is refused as outside although it lies inside the root |
| Paths.DotDotNamedChildAcceptedFixed | utils/files/paths.ts:15-16 | corrected, the same child is accepted unless it is ignored |
| Paths.AsWrittenAgreesWithFixed | utils/files/paths.ts:11-24 | the check as written and the corrected one decide alike exactly for paths whose first segment below the root does not start with `..` |
| Paths.MessagesDiffer | utils/files/paths.ts:16-21 | the outside message and the ignored message are never the same text |
| WorkspaceEditor.StripMarker | tools/files/workspaceEditor.ts:58 | one leading `+` or space is removed and nothing else |
| WorkspaceEditor.ContentLines | tools/files/workspaceEditor.ts:56-58 | removed lines vanish, so without them every line stays |
| WorkspaceEditor.OverwriteContent | tools/files/workspaceEditor.ts:50-62 | text with no marked line is written as is; otherwise the content lines are rejoined |
| WorkspaceEditor.CreateFileOp | tools/files/workspaceEditor.ts:16-27 | creation succeeds exactly when the path is accepted and the diff applies; then only the target is written, and a failure writes nothing |
| WorkspaceEditor.UpdateFileOp | tools/files/workspaceEditor.ts:29-43 | an update succeeds exactly when the path is accepted, the file exists and the diff applies; a missing file reports its resolved path |
| WorkspaceEditor.OverwriteFileOp | tools/files/workspaceEditor.ts:45-69 | an overwrite succeeds exactly when the path is accepted; it writes the overwrite content of the normalised input, and a failure writes nothing |
| WorkspaceEditor.DeleteFileOp | tools/files/workspaceEditor.ts:71-82 | a deletion succeeds exactly when the path is accepted and the file exists, and then removes only that file |
| WorkspaceEditor.Apply | tools/files/applyPatchTool.ts:120-137 | a failed operation changes no file, and a completed one had its path accepted |
| WorkspaceEditor.OnlyTargetChanges | tools/files/workspaceEditor.ts:16-82 | every operation touches at most its own target, which lies inside the root and is not ignored |
| WorkspaceEditor.FailureWritesNothing | tools/files/workspaceEditor.ts:24-81 | a failed operation leaves the workspace as it was |
| WorkspaceEditor.DeletedFileIsMissing | tools/files/workspaceEditor.ts:32-76 | once a file is deleted, updating or deleting it again reports it missing |
| WorkspaceEditor.ContentLinesAppend | tools/files/workspaceEditor.ts:56-59 | content lines keep their order |
| WorkspaceEditor.ContentLinesSingle | tools/files/workspaceEditor.ts:57-58 | removed lines vanish, added and context lines lose their marker, other lines stay |
| WorkspaceEditor.AddMarkers | tools/files/applyPatchTool.ts:16 | every line gains a leading `+` |
| WorkspaceEditor.ContentOfAddedLines | tools/files/workspaceEditor.ts:56-58 | stripping the markers of added lines gives the lines back |
| WorkspaceEditor.AddedLinesRoundTrip | tools/files/workspaceEditor.ts:50-62 | overwriting with content given entirely as added lines stores exactly those lines |
| WorkspaceEditor.UnmarkedTextVerbatim | tools/files/workspaceEditor.ts:60-62 | text with no line starting with `+` or `-` is written verbatim |
| ApplyPatch.ReplaceBackslashes | tools/files/applyPatchTool.ts:21 | every backslash becomes a slash and nothing else changes |
| ApplyPatch.NormalizedPath | tools/files/applyPatchTool.ts:20-22 | the result has no backslash and is the slash-converted path without at most two leading characters |
| ApplyPatch.PickExistingSkill | tools/files/applyPatchTool.ts:34-37 | a skill is picked exactly when some candidate exists, and it is an existing candidate |
| ApplyPatch.RequiredSkill | tools/files/applyPatchTool.ts:39-63 | given the list of skills read: deletes need nothing; a required skill exists, is not in the list, and is the resources skill only for resources paths and the schema skill only for `.graphql` paths |
| ApplyPatch.RequiredSkillAsWritten | tools/files/applyPatchTool.ts:24-63 | as written, with the skills list read from a session field that does not exist: deletes need nothing, a resources path needs `automatic-apis` whenever it exists, and another `.graphql` path needs the schema skill whenever it exists, whatever was read |
| ApplyPatch.RequiredSkillFixed | tools/files/applyPatchTool.ts:39-63 | corrected, reading the tracked session's record: a required skill exists and has not been read; with both skills read nothing is required |
| ApplyPatch.GuardNeverLiftsAsWritten | tools/files/applyPatchTool.ts:24-32 | as written, the decision is the one taken with nothing read, for every record of read skills |
| ApplyPatch.ReadSkillStillRequiredAsWritten | tools/files/applyPatchTool.ts:24-63 | as written, creating `resources/a.ts` after reading `automatic-apis` is refused with the skill text and edits nothing; corrected, no skill is required |
| ToolApproval.HasCallId | tools/files/applyPatchTool.ts:78 | a call id takes part in replay exactly when it is present and not the empty string, as JavaScript truthiness of a string decides |
| ToolApproval.Replayed | tools/general/shellTool.ts:67 | a missing or empty call id is never replayed, whatever the run context says; a non-empty one is replayed exactly when the run context has approved that call |
| ApplyPatch.NeedsApproval | tools/files/applyPatchTool.ts:67-109 | a guarded operation and an already approved call never ask, and at most one notification is sent |
| ApplyPatch.Execute | tools/files/applyPatchTool.ts:111-146 | a guarded operation returns the skill text and edits nothing; an empty diff is refused for create, update and overwrite; no failure edits anything |
| ApplyPatch.NeedsApprovalIff | tools/files/applyPatchTool.ts:67-109 | the user is asked exactly when there is no guard, no prior approval, no auto-approval and the notification does not throw |
| ApplyPatch.GuardedOperationNeverEdits | tools/files/applyPatchTool.ts:74-119 | a guarded operation neither asks the user nor edits anything |
| ApplyPatch.ExecuteIsEditor | tools/files/applyPatchTool.ts:120-137 | without a guard and with a diff (or for a delete) execution is exactly the editor operation |
| ApplyPatch.ResourcesGuardShadowsSchemaGuard | tools/files/applyPatchTool.ts:47-53 | a resources path whose skill does not exist stops at the first guard and never reaches the schema guard |
| ApplyPatch.ReadingSkillLiftsGuard | tools/files/applyPatchTool.ts:50-58 | corrected: once the required skill has been recorded as read, that skill is no longer required |
| ApplyPatch.DotSlashStripped | tools/files/applyPatchTool.ts:21 | a `./` prefix is dropped |
| ApplyPatch.PlainPathUnchanged | tools/files/applyPatchTool.ts:21 | a path without backslashes not starting with `.` is unchanged |
| ApplyPatch.LeadingDotOfNameStripped | tools/files/applyPatchTool.ts:21 | a single leading dot is stripped even when it belongs to a file name |
| AutoApprove.ToggleNeedsApproval | tools/general/setPatchAutoApproveTool.ts:17-20 | the user is not asked only when the setting is present, and then it already holds the requested value (together with tools/general/setInterpreterAutoApproveTool.ts:17-20) |
| AutoApprove.SetTracked | tools/general/setPatchAutoApproveTool.ts:30 | only the chosen settings-pane flag takes the requested value (together with tools/general/setInterpreterAutoApproveTool.ts:30) |
| AutoApprove.ToggleExecute | tools/general/setPatchAutoApproveTool.ts:21-36 | as written: a setting already at the value gets the "already set" reply and nothing changes; otherwise the process variable and pane flag are set and success is reported, with the `.env` text updated only when the write succeeds (together with tools/general/setInterpreterAutoApproveTool.ts:21-36) |
| AutoApprove.ToggleExecuteAwaited | tools/general/setPatchAutoApproveTool.ts:27-35 | corrected: a failing update is reported as an error, leaving the file and the pane untouched, and without a failure it behaves as written |
| AutoApprove.NeedsApprovalIffChange | tools/general/setPatchAutoApproveTool.ts:17-28 | the tool asks exactly when running it would change the process environment |
| AutoApprove.ToggleReachesTarget | tools/general/setPatchAutoApproveTool.ts:19-28 | after the tool has run the setting holds the requested value and a repeat would not ask |
| AutoApprove.ToggleIdempotent | tools/general/setPatchAutoApproveTool.ts:23-25 | running the tool a second time with the same request only replies "already set" |
| AutoApprove.PatchToggleEnablesAutoApproval | tools/general/setPatchAutoApproveTool.ts:28 | switching patch approval on makes the patch tool auto-approve from then on (together with tools/files/applyPatchTool.ts:82) |
| AutoApprove.OtherFlagUntouched | tools/general/setPatchAutoApproveTool.ts:30 | only the chosen pane flag changes (together with tools/general/setInterpreterAutoApproveTool.ts:30) |
| AutoApprove.FailedWriteReportedAsSuccess | tools/general/setPatchAutoApproveTool.ts:27-35 | as written, a failing `.env` write still gets the success reply and leaves the file unchanged |
| AutoApprove.RepliesDistinct | tools/general/setPatchAutoApproveTool.ts:24-34 | the three replies are told apart by their text |
| AutoApprove.AwaitedReportsFailure | tools/general/setPatchAutoApproveTool.ts:27-35 | corrected, the reply reports a failure exactly when the update failed, and a success reply means the file was written |
| ShellTool.FirstIndex | tools/general/shellTool.ts:71-72 | the position found is the first command satisfying the test, or the end |
| ShellTool.FindFirst | tools/general/shellTool.ts:71-72 | a command is found exactly when one satisfies the test, and it is the first such |
| ShellTool.EchoLines | tools/general/shellTool.ts:95-97 | each command is echoed on its own line after the prompt marker |
| ShellTool.ShellNeedsApproval | tools/general/shellTool.ts:66-100 | a replayed call is not asked about and prints nothing; otherwise a banner and every command are printed |
| ShellTool.FormatOutputs | tools/general/shellTool.ts:56-64 | each command's output is formatted on its own and the parts are joined by `\n---\n` |
| ShellTool.FoundIffAny | tools/general/shellTool.ts:71-75 | when the empty command never matches, finding a command is the same as some command matching |
| ShellTool.ShellApprovalIff | tools/general/shellTool.ts:66-100 | the user is asked exactly when the call is not replayed and the setting is not `1` or some command is risky or touches an ignored path |
| ShellTool.RiskyCommandForcesApproval | tools/general/shellTool.ts:71-84 | one risky command puts the whole batch up for approval under the risky banner |
| ShellTool.IgnoredPathForcesApproval | tools/general/shellTool.ts:72-88 | a command touching an ignored path forces approval, and the risky banner wins when both apply |
| ShellTool.NoSettingAlwaysAsks | tools/general/shellTool.ts:74 | without the setting every call that is not replayed is asked about |
| ShellTool.AutoBannerDistinct | tools/general/shellTool.ts:77-93 | only the auto-approved banner has its text |
| ShellTool.BannerMatchesDecision | tools/general/shellTool.ts:77-99 | the banner says auto-approved exactly when the user is not asked |
| Cli.AnyIn | utils/shell/cli.ts:9-17 | an argument list matches exactly when some argument, lower-cased, is a listed variant |
| Cli.IsHelpRequest | utils/shell/cli.ts:7-10 | help is requested exactly when some argument, lower-cased, is `--help`, `-h` or `help` |
| Cli.IsVersionRequest | utils/shell/cli.ts:15-18 | the version is requested exactly when some argument, lower-cased, is `--version`, `-v` or `version` |
| Cli.NoArgumentsNoRequest | utils/shell/cli.ts:7-18 | no arguments request neither |
| Cli.AnyPosition | utils/shell/cli.ts:9-17 | a recognised argument counts wherever it stands |
| Cli.OrderIrrelevant | utils/shell/cli.ts:9-17 | reordering the arguments changes nothing |
| Cli.CaseIrrelevant | utils/shell/cli.ts:9-17 | lower-casing the arguments first changes nothing |
| EnsureApiKey.OrFallback | utils/shell/ensureApiKey.ts:9-10 | a non-empty configured name is kept, a missing or empty one gives the fallback |
| EnsureApiKey.Add | utils/shell/ensureApiKey.ts:13-23 | adding to a set appends a new member once and keeps the existing order |
| EnsureApiKey.RequiredEnvVars | utils/shell/ensureApiKey.ts:8-24 | the variables needed are exactly those some model needs, each once |
| EnsureApiKey.SavedEnv | utils/shell/ensureApiKey.ts:53-56 | the entered key is stored under its variable and no other variable except the tracing switch changes |
| EnsureApiKey.AskKeys | utils/shell/ensureApiKey.ts:26-59 | on completion every required variable is set; nothing set before becomes unset; an exit has status 1 and follows an empty answer to the last prompt |
| EnsureApiKey.SavedFiles | utils/shell/ensureApiKey.ts:53-56 | once a key has been saved the `.env` file exists; with nothing saved the file is left as it was |
| EnsureApiKey.EnsureApiKeys | utils/shell/ensureApiKey.ts:7-60 | on completion every variable the two models need is set; nothing set before becomes unset; an exit has status 1; the `.env` text changes only when a key was saved, and then exists |
| EnsureApiKey.RequiredVarIsProviderVar | utils/shell/ensureApiKey.ts:15-23 | the variable a model needs is its provider's variable, and an Ollama model needs none (together with utils/files/getEnvVarForProvider.ts:3-14) |
| EnsureApiKey.SameProviderOneKey | utils/shell/ensureApiKey.ts:13-24 | two models of one hosted provider need one key |
| EnsureApiKey.FallbacksNeedOpenAIKey | utils/shell/ensureApiKey.ts:8-11 | with neither model configured only the OpenAI key is needed |
| EnsureApiKey.PromptedWereMissing | utils/shell/ensureApiKey.ts:26-29 | only required variables that were unset are asked for |
| EnsureApiKey.UnpromptedKept | utils/shell/ensureApiKey.ts:53-56 | a variable not asked for keeps its value, the tracing switch aside |
| EnsureApiKey.EveryMissingKeyAsked | utils/shell/ensureApiKey.ts:26-59 | on completion every required variable that was unset has been asked for |
| EnsureApiKey.SavedAreAnswers | utils/shell/ensureApiKey.ts:47-53 | every key saved is the non-empty answer typed for its variable, one per prompt and in prompt order; only the empty answer that exits is not saved |
| EnsureApiKey.SaveKeepsAnswers | utils/shell/ensureApiKey.ts:47-53 | saving an answered key before the rest of the loop keeps keys and prompts paired |
| EnsureApiKey.SavedFileHasKey | utils/shell/ensureApiKey.ts:53-56 | after a key is saved the `.env` text holds its line, also when the tracing switch is written after it |
| EnsureApiKey.TracingVarIsPlain | utils/shell/ensureApiKey.ts:55 | the tracing switch's name has no line break and no `=`, so it can be written as a line of its own |
| GetModel.IsOpenAIModel | lifecycle/getModel.ts:9-19 | a name is an OpenAI name exactly when it carries none of the three vendor prefixes; the early shortcut changes nothing |
| GetModel.GetProvider | lifecycle/getModel.ts:21-35 | Anthropic, Google and Ollama are chosen exactly by their prefixes, and everything else is OpenAI |
| GetModel.GetModelName | lifecycle/getModel.ts:57-71 | an Ollama name loses its prefix and any other name is unchanged |
| GetModel.Before | lifecycle/getModel.ts:79 | the text before the first occurrence of a character is a prefix without that character, followed by it or the end |
| GetModel.BeforeIs | lifecycle/getModel.ts:79 | only one prefix has those two properties |
| GetModel.ParsePort | lifecycle/getModel.ts:79-82 | a port is read when the text is empty or a decimal up to 65535; a scheme's default port reads as none |
| GetModel.ParseAuthority | lifecycle/getModel.ts:79 | the host is non-empty and free of `:` and `/`, and the port is in range and not the default |
| GetModel.ParseUrl | lifecycle/getModel.ts:79 | a parsed URL has a non-empty host, a security flag matching its scheme, a port in range that is not the default, and a path starting with `/` |
| GetModel.SerializeUrl | lifecycle/getModel.ts:95 | the text starts with the scheme and ends with the path |
| GetModel.DropTrailingSlash | lifecycle/getModel.ts:95 | one trailing slash is removed, and text without one is unchanged |
| GetModel.ApiPath | lifecycle/getModel.ts:84-93 | the path ends in `/api` and still starts with `/` |
| GetModel.WithScheme | lifecycle/getModel.ts:75-77 | the result has a scheme, and text that already had one is unchanged |
| GetModel.ForOllama | lifecycle/getModel.ts:80-93 | scheme and host are kept, a missing port becomes 11434, and the path ends in `/api` |
| GetModel.EndsWithApi | lifecycle/getModel.ts:95 | text ending in an `/api` path has no trailing slash to drop |
| GetModel.NormalizeOllamaBaseUrl | lifecycle/getModel.ts:73-96 | a normalised URL has a scheme, ends in `/api` and has no trailing slash; it exists exactly when the trimmed, scheme-completed text parses |
| GetModel.ChooseBackend | lifecycle/getModel.ts:37-55 | the backend is the name's provider; hosted providers get the name unchanged; Ollama gets the name without its prefix and a base URL exactly when one is configured |
| GetModel.OpenAIModelIffOpenAIProvider | lifecycle/getModel.ts:9-35 | a name is an OpenAI name exactly when its provider is OpenAI |
| GetModel.OllamaNameRoundTrip | lifecycle/getModel.ts:30-67 | prefixing a name with `ollama-` selects Ollama, and the backend sees the name again |
| GetModel.PortRoundTrip | lifecycle/getModel.ts:79-82 | a port reads back as itself |
| GetModel.AuthorityRoundTrip | lifecycle/getModel.ts:79 | a host and port read back as themselves |
| GetModel.NoSlashInPort | lifecycle/getModel.ts:79 | a port's text holds no slash |
| GetModel.SerializeSplit | lifecycle/getModel.ts:95 | the text is the scheme followed by host, port and path |
| GetModel.ParseSerialize | lifecycle/getModel.ts:79-95 | parsing the text of well-formed parts gives the parts back |
| GetModel.NormalizedShape | lifecycle/getModel.ts:73-96 | a normalised URL parses, has a port, has a path ending in `/api`, and is the text of its parts |
| GetModel.NormalizeFixedPoint | lifecycle/getModel.ts:73-96 | a URL already in normal form is its own normalisation |
| GetModel.TrimSerialized | lifecycle/getModel.ts:74-95 | the text of parts with an `/api` path has nothing to trim and no trailing slash |
| GetModel.ForOllamaKeeps | lifecycle/getModel.ts:80-93 | parts that have a port and an `/api` path are left alone |
| GetModel.NormalizedParts | lifecycle/getModel.ts:73-96 | a normalised URL is the text of parts that parse back and are left alone by normalisation |
| GetModel.NormalizeIdempotent | lifecycle/getModel.ts:73-96 | normalising a normalised URL changes nothing |
| GetModel.PortChosen | lifecycle/getModel.ts:79-82 | a URL without a port gets 11434; one with a non-default port keeps it; host and scheme are kept |
| ModelSettings.OrName | utils/sessions/modelSettings.ts:14-31 | the first name when it is non-empty, else the second |
| ModelSettings.MentionsAny | utils/sessions/modelSettings.ts:15 | true exactly when the lower-cased name contains one of the listed names, lower-cased |
| ModelSettings.GetModelSettings | utils/sessions/modelSettings.ts:13-27 | settings exist whenever a name is available; tool calls are never parallel; the tier is flex exactly when the flex flag is set; the verbosity follows the name |
| ModelSettings.GetCompactionModelSettings | utils/sessions/modelSettings.ts:29-36 | compaction settings always ask for medium verbosity |
| ModelSettings.LowerLiterals | utils/sessions/modelSettings.ts:8-11 | the listed names are already lower case |
| ModelSettings.MediumIff | utils/sessions/modelSettings.ts:8-16 | verbosity is medium exactly when the lower-cased name contains gpt-4o or gpt-5 |
| ModelSettings.NameFallback | utils/sessions/modelSettings.ts:14 | with no name given the tracked model decides, and a given name wins over it |
| ModelSettings.CompactionDiffersOnlyInVerbosity | utils/sessions/modelSettings.ts:29-36 | compaction settings exist exactly when the chain of names ends somewhere, and equal the base settings for that name except for the verbosity |
| ModelSettings.RedirectedNamesNeedMedium | utils/sessions/modelSettings.ts:8-16 | every redirected name and every replacement asks for medium verbosity (together with utils/models/deprecations.ts:21-28) |
| Deprecations.FirstRule | utils/models/deprecations.ts:34-38 | the rule found is the first that matches, and none means no rule matches |
| Deprecations.ReplacementIn | utils/models/deprecations.ts:30-40 | a missing or empty name has no replacement; a hit comes from the first matching rule; a miss means no rule matches |
| Deprecations.GetDeprecatedReplacement | utils/models/deprecations.ts:30-41 | a name is redirected exactly when its lower-cased form starts with `gpt-4o`, and then to `gpt-5-nano` under the gpt-4o rule |
| Deprecations.WarnAndPersistRedirect | utils/models/deprecations.ts:42-51 | the replacement is written to the setting in the process and in `.env` |
| Deprecations.LowerGpt4o | utils/models/deprecations.ts:24 | the prefix compared is already lower case |
| Deprecations.Gpt4oRedirected | utils/models/deprecations.ts:21-28 | every name starting with gpt-4o in any letter case is redirected to gpt-5-nano |
| Deprecations.OthersKept | utils/models/deprecations.ts:21-28 | every other name is left alone |
| Deprecations.RedirectIdempotent | utils/models/deprecations.ts:21-40 | a replacement matches no rule, so redirecting twice is redirecting once |
| Deprecations.RedirectKeepsProvider | utils/models/deprecations.ts:21-28 | a redirect never changes the provider: both names are OpenAI names (together with lifecycle/getModel.ts:21-35) |
| Deprecations.FirstMatchWins | utils/models/deprecations.ts:20-38 | the first matching rule decides, whatever later rules say |
| PackageManager.FirstAvailable | utils/package/pickPreferredPackageManager.ts:8-10 | the manager found is the first available one, and none means none is available |
| PackageManager.PickPreferredPackageManager | utils/package/pickPreferredPackageManager.ts:5-12 | npm is picked exactly when none of yarn, pnpm, bun and deno is available; otherwise the first available of them |
| PackageManager.BuildCreateCommand | utils/package/buildHarperCreateCommand.ts:3-24 | every command starts with its label, which starts with the manager's name, and ends by redirecting errors to output |
| PackageManager.NpmNeverProbed | utils/package/pickPreferredPackageManager.ts:7-11 | npm's availability never affects the choice |
| PackageManager.DisplayNamesDistinct | utils/package/pickPreferredPackageManager.ts:14-20 | no two managers share a display name |
| PackageManager.AppNameQuoted | utils/package/buildHarperCreateCommand.ts:11-20 | the application name appears double-quoted in every command |
| PackageManager.TemplateUse | utils/package/buildHarperCreateCommand.ts:9-23 | deno ignores the template, and every other manager's command ends with it |
| RateLimits.Normalize | utils/sessions/rateLimits.ts:23-26 | the normalised header map has only lower-case keys |
| RateLimits.GetHeader | utils/sessions/rateLimits.ts:28-31 | a header is found only under the lower-cased form of the requested name |
| RateLimits.FirstNonEmpty | utils/sessions/rateLimits.ts:33-57 | a chain of alternative header names never yields an empty string |
| RateLimits.FirstNonEmptyIsFirst | utils/sessions/rateLimits.ts:33-57 | the chain finds nothing exactly when every name in it is absent or empty; otherwise it yields the first present, non-empty header, with every earlier one absent or empty |
| RateLimits.NumericUpdate | utils/sessions/rateLimits.ts:59-63 | a numeric field takes the `parseInt` of the header when one was found and keeps its old value otherwise |
| RateLimits.TextUpdate | utils/sessions/rateLimits.ts:64-65 | a reset field takes the header text when one was found and keeps its old value otherwise |
| RateLimits.UpdateFromHeaders | utils/sessions/rateLimits.ts:22-66 | each of the seven status fields is updated from its own header chain over the case-normalised headers, independently of the others |
| RateLimits.UpdateIdempotent | utils/sessions/rateLimits.ts:22-66 | applying the same response headers twice leaves the status of one application |
| RateLimits.UpdateWithoutHeaders | utils/sessions/rateLimits.ts:22-66 | a response with no headers leaves the status unchanged |
| RateLimits.LowerKeys | utils/sessions/rateLimits.ts:23-26 | lower-casing header names keeps each header's position and value |
| RateLimits.NormalizeIgnoresCase | utils/sessions/rateLimits.ts:23-26 | header names are case-insensitive: lower-casing them beforehand gives the same normalised map |
| RateLimits.UpdateIgnoresCase | utils/sessions/rateLimits.ts:22-66 | the status update does not depend on the case of the header names |
| RateLimits.Usage | utils/sessions/rateLimits.ts:80-88 | usage is 0 without a truthy limit or a remaining count; otherwise it satisfies usage × limit = 100 × (limit − remaining) |
| RateLimits.GetUsagePercentage | utils/sessions/rateLimits.ts:80-88 | a dimension is NaN exactly when its limit is a non-zero number and its remaining count did not parse; an untouched quota is 0 percent and an exhausted one 100 percent |
| RateLimits.UsageBounds | utils/sessions/rateLimits.ts:80-88 | with remaining between 0 and the limit, usage lies between 0 and 100 percent |
| RateLimits.IsApproachingLimit | utils/sessions/rateLimits.ts:68-74 | a dimension is flagged exactly when its usage is at least the threshold |
| RateLimits.ApproachingMonotone | utils/sessions/rateLimits.ts:68-74 | a lower threshold flags every dimension a higher one flags |
| RateLimits.Reset | utils/sessions/rateLimits.ts:90-100 | reset clears every field of the status |
| RateLimits.ChainMissesByLength | utils/sessions/rateLimits.ts:33-57 | a chain none of whose names is as long as the only header present finds nothing |
| RateLimits.RetryAfterNormalized | utils/sessions/rateLimits.ts:23-26 | a `Retry-After` header is stored under `retry-after` |
| RateLimits.ParsedRendering | utils/sessions/rateLimits.ts:65 | the decimal text of a natural number parses back to that number |
| RateLimits.RetryChainHit | utils/sessions/rateLimits.ts:57 | the retry-after chain finds a non-empty `retry-after` header's value |
| RateLimits.OtherChainsMiss | utils/sessions/rateLimits.ts:33-56 | no limit, remaining or reset chain picks up a `retry-after` header |
| RateLimits.RetryAfterExample | utils/sessions/rateLimits.ts:22-66 | a `Retry-After: n` header (such as `30`) sets the retry-after field to n and changes no other field |
| ShowError.ErrName | agent/showErrorToUser.ts:5 | the name is the error's `name` when that is truthy (a string as it is, anything else in its string form) and `Error` otherwise |
| ShowError.ErrMessage | agent/showErrorToUser.ts:6 | the message is the error's `message` when that is a truthy string and the error's string form when it is falsy; a truthy non-string message makes the report throw (ShowError.ReportThrows) |
| ShowError.CodePart | agent/showErrorToUser.ts:7 | the ` code=` part is present exactly when the error's code is truthy |
| ShowError.StatusPart | agent/showErrorToUser.ts:8-9 | the ` status=` part is present exactly when one of the status fields is truthy |
| ShowError.StatusPrecedence | agent/showErrorToUser.ts:8 | the status comes from `status`, else from `statusCode`, else from `response.status`: the first truthy one |
| ShowError.Run | agent/showErrorToUser.ts:10 | the id-character run is the longest prefix whose characters are all id characters |
| ShowError.CaptureAfter | agent/showErrorToUser.ts:10 | a captured id starts with `call_` (in any case) and continues with id characters only |
| ShowError.CallIdAt | agent/showErrorToUser.ts:10 | a match at a position starts with `function call` (in any case) there |
| ShowError.FindCallId | agent/showErrorToUser.ts:10-11 | the scan returns the match at the leftmost matching position, and finds nothing exactly when no position matches |
| ShowError.KeywordsLowerCase | agent/showErrorToUser.ts:10 | the pattern's keywords are already lower-case, so they match case-insensitively as written |
| ShowError.RunOfPrefix | agent/showErrorToUser.ts:10 | a run of id characters followed by a non-id character is captured exactly |
| ShowError.CaptureIdAt | agent/showErrorToUser.ts:10 | an id starting `call_` and ending before a non-id character is captured whole |
| ShowError.CaptureWholeId | agent/showErrorToUser.ts:10 | after white space, an id starting `call_` is captured whole |
| ShowError.KeywordAt | agent/showErrorToUser.ts:10 | text beginning with `function call` matches the keyword and leaves the rest for the capture |
| ShowError.CallIdCaptured | agent/showErrorToUser.ts:10-11 | in `function call <ws> call_… <non-id>` the call id found is exactly that id |
| ShowError.Hint | agent/showErrorToUser.ts:12-17 | the hint is present exactly when the message reports a missing tool output |
| ShowError.HintNamesCallId | agent/showErrorToUser.ts:11-17 | for a missing tool output whose call id is found, the hint is the fixed opening, the note naming that id, the note of the last tool call and the fixed closing, so it contains the id |
| ShowError.Excerpt | agent/showErrorToUser.ts:23-24 | data up to 500 characters is shown whole; longer data is cut to its first 500 characters and marked, so the excerpt is never longer than 500 plus the marker |
| ShowError.DataPart | agent/showErrorToUser.ts:19-26 | no response data, no data line |
| ShowError.DataExcerptBounds | agent/showErrorToUser.ts:19-26 | non-empty string response data follows the data heading, whole up to 500 characters and otherwise cut to 500 and marked, so the line has a fixed upper length |
| ShowError.Take | agent/showErrorToUser.ts:27 | taking n lines gives the first min(n, count) lines |
| ShowError.StackFirstLines | agent/showErrorToUser.ts:27 | the stack shown is at most its first eight lines, joined by newlines so that splitting it again gives exactly those lines |
| ShowError.LastToolPart | agent/showErrorToUser.ts:28 | the last-tool line is present exactly when a last tool call is known |
| ShowError.Composed | agent/showErrorToUser.ts:4-29 | the report starts with the name and a colon and contains the message; it contains the hint's opening when the message reports a missing tool output, and the `Last tool call:` line when a last tool call is known; with none of hint, last tool call, data or stack it ends with the message |
| ShowError.PlainErrorReport | agent/showErrorToUser.ts:3-29 | an error with just a name and a message is reported as `name: message` |
| ShowError.NullErrorReport | agent/showErrorToUser.ts:4-6 | a null error is reported as the empty object: the name `Error` and the object's string form |
| StreamEvents.ToolName | agent/runAgentForOnePass.ts:62 | the tool's name is its truthy `name`, else its truthy `type`, else `tool` |
| StreamEvents.ToolArgs | agent/runAgentForOnePass.ts:63-75 | non-empty direct arguments are always what is shown |
| StreamEvents.StringArgumentsVerbatim | agent/runAgentForOnePass.ts:63-64 | non-empty string arguments are shown verbatim whatever the item's type |
| StreamEvents.ShellCallFallsBackToCommands | agent/runAgentForOnePass.ts:69-71 | without direct arguments a shell call shows the JSON of its commands, and an item that is neither a shell nor a patch call shows nothing |
| StreamEvents.PatchCallFallsBackToOperation | agent/runAgentForOnePass.ts:73-75 | without direct arguments a patch call shows the JSON of its operation, or nothing without one |
| AgentManager.WithApiKey | agent/AgentManager.ts:28-32 | a non-empty key is written to exactly its provider's variable; without a key, or for a provider with no variable, the environment is unchanged |
| AgentManager.ApiKeyOnlyForItsProvider | agent/AgentManager.ts:28-32 | no other variable changes, and an Ollama configuration changes nothing |
| AgentManager.Initialize | agent/AgentManager.ts:19-51 | a second call does nothing; a first records both models, sets the key, creates the agent and session, marks the manager initialised, and starts `runTask` exactly when standard input held a non-empty prompt |
| AgentManager.InitializeIdempotent | agent/AgentManager.ts:20 | initialising again, with any configuration, changes nothing and emits nothing |
| AgentManager.ExitCodeAt | agent/AgentManager.ts:140 | a match at a position begins with `EXIT CODE: ` there and captures a non-empty run of digits |
| AgentManager.FirstExitAt | agent/AgentManager.ts:140 | the search stops at the first matching position, with no match before it |
| AgentManager.FirstExitIs | agent/AgentManager.ts:140 | a matching position with no match before it is the one the search finds |
| AgentManager.FindExitCode | agent/AgentManager.ts:140-141 | nothing is found exactly when no position matches; otherwise the digits of the leftmost match |
| AgentManager.ParseExitCode | agent/AgentManager.ts:137-144 | a non-string result, or one without the marker, reads as exit code 0; the code is never negative |
| AgentManager.DigitRunBeforeNonDigit | agent/AgentManager.ts:140 | `\d+` captures a run of digits exactly when a non-digit or the end follows it |
| AgentManager.NoMarkerBefore | agent/AgentManager.ts:140 | the marker cannot start inside text that does not contain it when a line break follows that text |
| AgentManager.MarkerMatched | agent/AgentManager.ts:140 | after a line break, the marker and digits not followed by a digit are matched with exactly those digits |
| AgentManager.FirstMarkerAfterText | agent/AgentManager.ts:140-141 | in marker-free text, a line break and the marker, the leftmost match is the one after the break |
| AgentManager.ExitCodeRoundTrip | agent/AgentManager.ts:137-144 | the exit code the shell tool writes into its result is the code read back from it, whatever text follows |
| AgentManager.BatchReportsFirstExitCode | agent/AgentManager.ts:137-144 | for a batch of commands, the code read back is the first command's exit code |
| AgentManager.RunStep | agent/AgentManager.ts:72-161 | an event only appends notifications, the response counts as started once a text delta has arrived, and the shell counter grows by one exactly for a shell tool call |
| AgentManager.FinishedShellUpdatesLatestRow | agent/AgentManager.ts:132-151 | a finished shell call updates the row of the latest shell call (counter − 1) as no longer running, with the parsed exit code |
| AgentManager.ShellCounterCountsCalls | agent/AgentManager.ts:124-131 | with no event past the ceiling, the run reads every event and the shell counter grows by exactly the number of shell tool calls |
| AgentManager.Consume | agent/AgentManager.ts:72-186 | a run stops exactly when some event passes the cost ceiling, at the first such event; notifications are only appended, and the shell counter grows by the shell calls among the events read |
| AgentManager.NoCeilingDrains | agent/AgentManager.ts:174-185 | without a cost ceiling every event is consumed |
| AgentManager.CatchReport | agent/AgentManager.ts:200-216 | a null or undefined error makes the report itself throw; an abort is reported as `Thought interrupted.` |
| AgentManager.AbortShowsInterrupted | agent/AgentManager.ts:200-205 | an aborted run returns the input to waiting and shows only `Thought interrupted.` |
| AgentManager.RunTask | agent/AgentManager.ts:53-199 | `runTask` on an uninitialised manager is rejected with `Agent not initialized` and emits nothing; otherwise, when the stream starts, the shell counter grows by the shell calls among the events read before the run stops |
| AgentManager.CeilingRecordsNothing | agent/AgentManager.ts:174-184 | a run stopped by the cost ceiling resolves without recording the turn or saving an approval |
| AgentManager.ApprovalStateBookkeeping | agent/AgentManager.ts:68-199 | the saved approval state is the run's state exactly when the run ended cleanly with interruptions, and the turn is recorded exactly when it ended cleanly without them |
| AgentManager.HandleApproval | agent/AgentManager.ts:220-224 | without a saved state, or with no interruptions in it, nothing happens |
| AgentManager.ApprovalDecidesFirstOnly | agent/AgentManager.ts:224-238 | only the first interruption is approved or rejected, the saved state is cleared, and the run resumes from the decided state |
| OnePass.WithTier | agent/runAgentForOnePass.ts:46-54 | the service tier goes onto the usage record and onto its last entry only; the other entries keep theirs |
| OnePass.DisplayedArgs | agent/runAgentForOnePass.ts:77-79 | the arguments are shown in parentheses, `()` exactly when there are none; they are shown whole up to the truncation point, otherwise cut there and followed by `...`, so the text is at most 5 characters longer than the truncation point |
| OnePass.Step | agent/runAgentForOnePass.ts:30-89 | an event only appends notifications and keeps the number of usage entries |
| OnePass.Drain | agent/runAgentForOnePass.ts:30-114 | reading the events keeps the number of usage entries |
| OnePass.DeltaEmits | agent/runAgentForOnePass.ts:37-43 | a stream of text deltas produces one text notification per delta |
| OnePass.StepText | agent/runAgentForOnePass.ts:37-43 | each event keeps the text notifications equal to those of the deltas seen so far, and the response counts as started exactly when a delta has been seen |
| OnePass.DrainText | agent/runAgentForOnePass.ts:30-114 | after all events, the text notifications are exactly a push of the first delta followed by one append per later delta |
| OnePass.OneNonTextEmit | agent/runAgentForOnePass.ts:55 | a notification that is not agent text leaves the text notifications unchanged |
| OnePass.DeltaEmitsSnoc | agent/runAgentForOnePass.ts:38-43 | a further delta adds exactly one notification at the end: the push for the first, an append otherwise |
| OnePass.DrainKeepsLastToolCall | agent/runAgentForOnePass.ts:86 | the saved context is the display string of the most recent tool call, or the previous one when no tool was called |
| OnePass.Consume | agent/runAgentForOnePass.ts:91-110 | a pass stopped by the ceiling stops at one of its events |
| OnePass.FirstExceeding | agent/runAgentForOnePass.ts:91-97 | the event found is the first whose estimate passes the ceiling; nothing is found exactly when none does |
| OnePass.ConsumeStopsAtFirstExceeding | agent/runAgentForOnePass.ts:91-110 | with a ceiling passed, the pass reads every event up to and including the first that passes it and then shows the denial and the cost message; otherwise it reads every event |
| OnePass.HandleExit | lifecycle/handleExit.ts:10 | the process exits with status 0, whatever exit code was set before |
| OnePass.HandleExitKeepingCode | lifecycle/handleExit.ts:10 | an exit code set earlier becomes the exit status, otherwise 0 |
| OnePass.Decide | agent/runAgentForOnePass.ts:129-138 | one decision per interruption, in order: approved exactly when the answer contains a user message the yes-test accepts |
| OnePass.RunOnePass | agent/runAgentForOnePass.ts:11-151 | as written, a pass that ends the process ends it with status 0 |
| OnePass.RunOnePassFixed | agent/runAgentForOnePass.ts:11-151 | corrected, a pass that ends the process ends it with status 1 |
| OnePass.FixedDiffersOnlyInStatus | agent/runAgentForOnePass.ts:107-108 | the pass as written and the corrected one end the process for the same runs with the same notifications, with status 0 against 1, and agree on every other outcome |
| OnePass.Start | agent/runAgentForOnePass.ts:11-29 | a pass starts with no text started, no tool call remembered and the thinking notification alone |
| OnePass.ErrorEmits | agent/runAgentForOnePass.ts:147-149 | a reported error sends three notifications in order: input denied, input waiting a second later, and the composed report as one agent message |
| OnePass.ErrorReportIsOnlyText | agent/runAgentForOnePass.ts:147-149 | of the three notifications of an error report, only the report itself is agent text |
| OnePass.Finish | agent/runAgentForOnePass.ts:113-150 | after the events the pass never exits; it rejects, with the pass unchanged, exactly when the stream failed with an error whose message is truthy but not a string; otherwise it only appends notifications; an error returns null; it waits for replies exactly while fewer batches than interruptions arrived, and otherwise returns one decision per interruption |
| OnePass.RunWith | agent/runAgentForOnePass.ts:30-150 | the process is ended exactly when some event passes the cost ceiling, with the status the exit path gives; the pass rejects only when the stream failed and composing the report throws |
| OnePass.NoCeilingNoExit | agent/runAgentForOnePass.ts:91 | without a cost ceiling the pass never ends the process |
| OnePass.CeilingExitsWithZero | agent/runAgentForOnePass.ts:97-108 | as written, an estimate passing the ceiling ends the process with status 0 although the exit code was set to 1 |
| OnePass.CeilingExitsWithFailure | agent/runAgentForOnePass.ts:97-108 | corrected, an estimate passing the ceiling ends the process with status 1 |
| OnePass.ReturnsStateOnlyForInterruptions | agent/runAgentForOnePass.ts:126-146 | the run state is handed back only when the stream ended cleanly with interruptions, with one decision per interruption in order; a failed run or one without interruptions returns null; the pass rejects only when the error report throws |
| OnePass.FailureReportsLastToolCall | agent/runAgentForOnePass.ts:147-149 | a failed stream returns null and ends with the error report naming the most recent tool call; when the error's message is truthy but not a string the pass instead rejects, after the events' notifications and before any report |
| OnePass.FinishAddsNoText | agent/runAgentForOnePass.ts:116-146 | without a failure, finishing the pass adds no agent-text notification |
| OnePass.StreamedTextShown | agent/runAgentForOnePass.ts:30-146 | a stream without failure shows its first delta as a new agent message and appends every later delta, and nothing else as agent text |
| ChatContext.InitialMessages | ink/contexts/ChatContext.tsx:20-36 | the initial messages are numbered by position; seeds keep their kind, text and arguments, with version 1 where none is given; without seeds there is exactly the greeting |
| ChatContext.Push | ink/contexts/ChatContext.tsx:49-55 | pushed messages go after the existing ones, which are unchanged, numbered on from the old length at version 1 |
| ChatContext.PushKeepsIds | ink/contexts/ChatContext.tsx:49-55 | if every id was its position before a push, it still is after it |
| ChatContext.PushTwice | ink/contexts/ChatContext.tsx:49-55 | two pushes in a row equal one push of both lists |
| ChatContext.LastAgentIndex | ink/contexts/ChatContext.tsx:78-82 | the index found holds an agent message with none after it; nothing is found exactly when no message is from the agent |
| ChatContext.AppendToLast | ink/contexts/ChatContext.tsx:73-93 | appending keeps the number of messages, and without an agent message nothing changes |
| ChatContext.AppendChangesLastAgentOnly | ink/contexts/ChatContext.tsx:82-91 | only the last agent message changes: its text gains the streamed text and its version goes up by one |
| ChatContext.AppendsAccumulate | ink/contexts/ChatContext.tsx:73-93 | two streamed chunks leave the same texts as one chunk holding both |
| ShellContext.Add | ink/contexts/ShellContext.tsx:16-27 | a new row goes at the end with the next id, the old rows are unchanged, and ids stay increasing |
| ShellContext.UpdateRows | ink/contexts/ShellContext.tsx:30-36 | every row with the matching id gets the new fields merged in; every other row is unchanged |
| ShellContext.Update | ink/contexts/ShellContext.tsx:29-37 | an update keeps the number of rows, their ids and every row with another id, and keeps ids increasing |
| ShellContext.UnknownIdIsNoOp | ink/contexts/ShellContext.tsx:30-36 | an update for an id no row has changes nothing |
| ShellContext.UpdateTouchesOneRow | ink/contexts/ShellContext.tsx:29-37 | with unique ids, exactly one row changes: it gets the new state and exit code and keeps its command and arguments |
| ShellContext.UpdateIdempotent | ink/contexts/ShellContext.tsx:29-37 | repeating an update changes nothing further |
| ShellContext.AddedRowUpdatable | ink/contexts/ShellContext.tsx:16-37 | a row just added can be updated by its id without touching any other row |
| PlanContext.CountCompleted | ink/contexts/PlanContext.tsx:28 | the number of completed items is at most the number of items |
| PlanContext.CompletedCounts | ink/contexts/PlanContext.tsx:28 | all items completed counts every item; none completed counts zero |
| PlanContext.RoundedPercent | ink/contexts/PlanContext.tsx:29 | the percentage is the nearest whole number to completed / total × 100, halves rounded up |
| PlanContext.Progress | ink/contexts/PlanContext.tsx:28-29 | an empty plan shows 0; otherwise the progress is the nearest whole percentage of completed items, halves rounded up |
| PlanContext.PercentInRange | ink/contexts/PlanContext.tsx:29 | the rounded percentage lies between 0 and 100 |
| PlanContext.LessByFactor | ink/contexts/PlanContext.tsx:29 | a positive common factor cancels from a strict inequality |
| PlanContext.ProgressInRange | ink/contexts/PlanContext.tsx:28-29 | progress lies between 0 and 100 for every plan |
| PlanContext.ProgressAtEnds | ink/contexts/PlanContext.tsx:29 | all completed gives 100 and none completed gives 0 |
| PlanContext.ProgressMonotone | ink/contexts/PlanContext.tsx:29 | for a fixed number of items, completing more never lowers the progress |
| PlanContext.ProgressOfFullAndEmptyPlans | ink/contexts/PlanContext.tsx:28-29 | a plan with every item completed shows 100, and one with none completed shows 0 |
| PlanContext.SetPlanItems | ink/contexts/PlanContext.tsx:26-33 | the items are replaced, the goal kept, and the progress recomputed within 0 to 100 |
| PlanContext.SetGoal | ink/contexts/PlanContext.tsx:35-38 | only the goal changes |
| TextInput.SliceIndex | ink/components/BlinkingTextInput.tsx:42-50 | a slice index lands within the string, and an index already inside it is kept |
| TextInput.Slice | ink/components/BlinkingTextInput.tsx:42-50 | slicing within bounds is the subsequence between the indices, and is never longer than the string |
| TextInput.Reduce | ink/components/BlinkingTextInput.tsx:26-57 | every action keeps the cursor within the value or just past its end |
| TextInput.MovesOnlyCursor | ink/components/BlinkingTextInput.tsx:28-37 | moving left or right changes only the cursor, by one step, clamped at the ends |
| TextInput.LeftThenRight | ink/components/BlinkingTextInput.tsx:28-37 | left then right returns to the starting state unless the cursor was at the start |
| TextInput.InsertSplices | ink/components/BlinkingTextInput.tsx:38-44 | inserting splices the text in at the cursor, moves the cursor past it, and remembers the previous value |
| TextInput.DeleteRemovesOne | ink/components/BlinkingTextInput.tsx:45-53 | deleting removes exactly the character before the cursor and moves it back one; at the start the value is unchanged |
| TextInput.DeleteUndoesInsert | ink/components/BlinkingTextInput.tsx:38-53 | deleting right after typing one character restores the value and the cursor |
| TextInput.Initial | ink/components/BlinkingTextInput.tsx:67-71 | the input starts at the default value, unchanged, with the cursor after it |
| TextInput.Suggestion | ink/components/BlinkingTextInput.tsx:94-104 | an empty value has no completion; a completion is always the rest of some suggestion that extends the value |
| TextInput.SuggestionIsFirstMatch | ink/components/BlinkingTextInput.tsx:99-103 | for a non-empty value, the completion is non-empty exactly when the first suggestion starting with the value is longer than it |
| TextInput.Press | ink/components/BlinkingTextInput.tsx:106-139 | a key press keeps the cursor within the value, and submits only on enter, leaving the state unchanged |
| TextInput.EnterSubmitsCompletion | ink/components/BlinkingTextInput.tsx:120-128 | enter submits the value followed by its completion |
| TextInput.OnlyEnterSubmits | ink/components/BlinkingTextInput.tsx:108-139 | a key other than enter submits nothing, and an ignored key changes nothing |
| VirtualList.ResolvedHeight | ink/components/VirtualList.tsx:95-104 | a numeric height is used as given; a percentage gives the greatest row count not above that share of the terminal (on exact reals), so from 0 to 100 percent between 0 and the terminal's rows; without a height the list takes the terminal less the reserved lines, and at least one row |
| VirtualList.PercentRowsMonotone | ink/components/VirtualList.tsx:99-101 | a larger percentage of the same terminal never gives fewer rows |
| VirtualList.AvailableHeight | ink/components/VirtualList.tsx:112-113 | the rows for items are the height less the two indicator lines when they are shown, and 0 when nothing is left |
| VirtualList.ClampIndex | ink/components/VirtualList.tsx:128 | the selection is brought inside the list: an index inside is kept, one past the end becomes the last item, and an empty list gives 0 |
| VirtualList.VisibleWindow | ink/components/VirtualList.tsx:135-152 | the items drawn are the longest run from the offset that fits, but at least one item when there is room; nothing is drawn without room |
| VirtualList.WindowEmptyWithoutRoom | ink/components/VirtualList.tsx:136 | without room for items nothing is drawn |
| VirtualList.WindowIsFittingOrOne | ink/components/VirtualList.tsx:135-339 | with room, the drawn count equals the fitting count, except that one item is drawn even when it alone is too tall |
| VirtualList.SelectionVisible | ink/components/VirtualList.tsx:176-189 | the selection counts as visible exactly when it is at or below the offset and every run from the offset up to it fits |
| VirtualList.BottomAlign | ink/components/VirtualList.tsx:193-206 | the new offset puts the selection at the bottom: every run from it down to the selection fits, and including the item above it would not |
| VirtualList.FollowSelection | ink/components/VirtualList.tsx:155-211 | with no items or no room the offset is kept; a selection above the view becomes the offset; a selection that fits on its own ends up drawn between the new offset and the bottom |
| VirtualList.SelectionDrawn | ink/components/VirtualList.tsx:135-210 | once the run from the offset to the selection fits, the drawn window reaches the selection |
| VirtualList.InitialOffset | ink/components/VirtualList.tsx:222-243 | the first drawing with items and room scrolls to the bottom: the last item is drawn and one more item above would not fit; otherwise nothing is set |
| VirtualList.FittingBelow | ink/components/VirtualList.tsx:332-339 | the fitting count is the longest run from the offset whose height fits, and the total is that run's height |
| VirtualList.OverflowCounts | ink/components/VirtualList.tsx:330-340 | the top indicator counts the items above the offset; the bottom one counts those after the fitting run, so the three parts add up to the list |
| VirtualList.SumMonotone | ink/components/VirtualList.tsx:137-148 | with item heights never negative, a longer run from the same item is at least as tall |
| WrapText.Visible | ink/library/wrapText.ts:19-38 | the text a reader sees, with white space dropped, is never longer than the line |
| WrapText.VisibleTrimEnd | ink/library/wrapText.ts:19-38 | trimming the end of a line drops only white space |
| WrapText.RunLength | ink/library/wrapText.ts:12 | a run is the longest prefix of characters of the first character's class (white space or not) |
| WrapText.Tokens | ink/library/wrapText.ts:12-15 | the non-empty pieces of splitting on white-space runs put back together give the line, and neighbouring pieces alternate between white space and other characters |
| WrapText.Chunks | ink/library/wrapText.ts:25-28 | a long token's full chunks are each exactly the width long, come from its start, and leave less than a width over |
| WrapText.Remainder | ink/library/wrapText.ts:26-31 | the chunks followed by the remainder are the token, and the remainder is shorter than the width |
| WrapText.HardWrap | ink/library/wrapText.ts:25-32 | cutting a token without white space keeps every line and the line being filled within the width |
| WrapText.HardWrapChunks | ink/library/wrapText.ts:25-32 | cutting a token pushes exactly its full chunks; a non-empty remainder becomes the line being filled, otherwise that line is left as it was |
| WrapText.Flush | ink/library/wrapText.ts:19-38 | pushing the line being filled keeps every line within the width and free of trailing white space, and an empty line is not pushed |
| WrapText.Step | ink/library/wrapText.ts:14-36 | one token keeps every line and the line being filled within the width |
| WrapText.LongTokenChunked | ink/library/wrapText.ts:19-32 | corrected, a long token pushes the filled line, then its full chunks, and its remainder starts the next line |
| WrapText.StepSeen | ink/library/wrapText.ts:14-36 | corrected, each token adds exactly its visible text to what has been shown |
| WrapText.Fold | ink/library/wrapText.ts:14-37 | the tokens of a line keep every line within the width |
| WrapText.FoldSeen | ink/library/wrapText.ts:14-37 | corrected, the tokens of a line add exactly their visible text to what has been shown |
| WrapText.WrapLine | ink/library/wrapText.ts:7-38 | every line of a wrapped hard line fits the width without trailing white space, and an empty hard line gives one empty line |
| WrapText.WrapLineSeen | ink/library/wrapText.ts:7-38 | corrected, the wrapped lines of a hard line show exactly its text |
| WrapText.WrapLines | ink/library/wrapText.ts:6-39 | every wrapped line fits the width and none ends in white space |
| WrapText.WrapLinesSeen | ink/library/wrapText.ts:6-39 | corrected, the wrapped lines show exactly the text of the hard lines |
| WrapText.HardLinesIndependent | ink/library/wrapText.ts:3-6 | each hard line is wrapped on its own: the lines of the first come first, unchanged |
| WrapText.VisibleJoin | ink/library/wrapText.ts:3 | joining lines with line breaks adds no visible text |
| WrapText.Wrap | ink/library/wrapText.ts:1-41 | the result is never empty; at a width of at most one the text comes back whole; otherwise every line fits the width and none ends in white space |
| WrapText.WrapTextAsWritten | ink/library/wrapText.ts:1-41 | as written, the result is never empty and every line fits a width above one without trailing white space |
| WrapText.WrapText | ink/library/wrapText.ts:1-41 | corrected, the result is never empty and every line fits a width above one without trailing white space |
| WrapText.WrappingKeepsText | ink/library/wrapText.ts:1-41 | corrected, wrapping neither loses nor repeats text: without white space, the lines say exactly what the input says |
| WrapText.CurrentSurvivesChunks | ink/library/wrapText.ts:19-32 | as written, a token cut into full chunks only leaves the pushed line as the line being filled |
| WrapText.ExampleLayout | ink/library/wrapText.ts:14-37 | as written, "a xxxx" at width 2 pushes "a", "xx" and "xx" while "a " stays the line being filled |
| WrapText.ExampleWrapLine | ink/library/wrapText.ts:6-39 | as written, the line "a xxxx" at width 2 wraps to "a", "xx", "xx", "a" |
| WrapText.RepeatedLine | ink/library/wrapText.ts:19-38 | as written, "a xxxx" at width 2 wraps to "a", "xx", "xx", "a": the first line is shown twice, so the lines do not say what the text says |
| ParseArgs.StripQuotes | lifecycle/parseArgs.ts:18-23 | one surrounding pair of matching quotes is removed, a lone quote character becomes empty, and anything else is kept |
| ParseArgs.MatchPrefix | lifecycle/parseArgs.ts:50-62 | a spelling matches exactly when the argument equals it, inline when the argument is the spelling, `=` and a value, and not at all otherwise |
| ParseArgs.MatchAliasesIsFirst | lifecycle/parseArgs.ts:49-71 | the first of a key's spellings that matches decides; nothing matches exactly when no spelling does |
| ParseArgs.MatchFlagIsFirst | lifecycle/parseArgs.ts:37-73 | the first key in table order with a matching spelling claims the argument; none does exactly when no key matches |
| ParseArgs.SpellingsClean | lifecycle/parseArgs.ts:37-45 | every spelling is non-empty, has no `=`, and belongs to one key only |
| ParseArgs.ExactTakesNext | lifecycle/parseArgs.ts:50-59 | a flag given on its own takes the next, non-empty argument, quotes stripped, as its value, and parsing resumes after that argument |
| ParseArgs.ExactBeforeEmpty | lifecycle/parseArgs.ts:50-59 | a flag given on its own followed by an empty argument sets nothing, and the empty argument is passed over |
| ParseArgs.TwoClaimedFlags | lifecycle/parseArgs.ts:48-73 | two flags each followed by a value set both fields, the later one last |
| ParseArgs.PlainArgument | lifecycle/parseArgs.ts:50-61 | an argument without `=` matches a spelling only by being equal to it |
| ParseArgs.InlineArgument | lifecycle/parseArgs.ts:61-62 | `a=v` matches the spelling `a` inline with the value `v`, and no other spelling |
| ParseArgs.PlainMatchKey | lifecycle/parseArgs.ts:49-71 | an argument without `=` matches a key exactly when it is one of the key's spellings |
| ParseArgs.InlineMatchKey | lifecycle/parseArgs.ts:49-71 | `a=v` matches a key inline exactly when `a` is one of its spellings |
| ParseArgs.OnlyClaimant | lifecycle/parseArgs.ts:48-73 | when one key alone claims an argument, the loop uses that key |
| ParseArgs.SpellingClaimed | lifecycle/parseArgs.ts:48-73 | a spelling on its own is claimed by its key |
| ParseArgs.InlineClaimed | lifecycle/parseArgs.ts:48-73 | `a=v` is claimed by the key of `a`, with the value `v` |
| ParseArgs.Unclaimed | lifecycle/parseArgs.ts:48-75 | an argument without `=` that is no key's spelling is claimed by no key |
| ParseArgs.EmptyUnclaimed | lifecycle/parseArgs.ts:48-75 | the empty argument is claimed by no key |
| ParseArgs.SetField | lifecycle/parseArgs.ts:52-67 | a value is written to one setting only, and the switches are untouched |
| ParseArgs.SwitchFlag | lifecycle/parseArgs.ts:77-84 | an unclaimed argument sets its own switch when it is an on/off flag, and changes nothing otherwise |
| ParseArgs.SpellingTakesNextValue | lifecycle/parseArgs.ts:50-60 | a spelling followed by a non-empty argument sets its key to that argument without quotes, and parsing continues after it |
| ParseArgs.SpellingBeforeEmpty | lifecycle/parseArgs.ts:50-60 | a spelling followed by an empty argument sets nothing, and the empty argument is then skipped |
| ParseArgs.EmptySkipped | lifecycle/parseArgs.ts:34-85 | an empty argument changes nothing |
| ParseArgs.SpellingAtEnd | lifecycle/parseArgs.ts:50-60 | a spelling as the last argument sets nothing |
| ParseArgs.InlineTakesValue | lifecycle/parseArgs.ts:61-69 | `spelling=v` sets the key to `v` without quotes |
| ParseArgs.SwitchesApplied | lifecycle/parseArgs.ts:75-84 | each on/off flag sets its switch, and parsing continues with the next argument |
| ParseArgs.TwoFlags | lifecycle/parseArgs.ts:34-85 | two spellings each followed by a value set both keys, the later one last |
| ParseArgs.FillFromEnv | lifecycle/parseArgs.ts:88-96 | a variable fills a setting only when no flag gave it a truthy value |
| ParseArgs.OverrideFromEnv | lifecycle/parseArgs.ts:98-106 | a variable with a value wins over the flag; otherwise the flag's value stays |
| ParseArgs.ApplyEnv | lifecycle/parseArgs.ts:88-131 | the environment stage never changes the prompt, never switches off a switch a flag turned on, and changes the monitoring setting only when its variable is `false` |
| ParseArgs.ApplyFlagsExtends | lifecycle/parseArgs.ts:34-85 | a setting once given stays given, switches only turn on, monitoring can only be switched off, and the auto-approve settings are never touched by flags |
| ParseArgs.ResolveModel | lifecycle/parseArgs.ts:132-145 | an explicit model other than `default` is kept; a defaulted one is Anthropic exactly when the Anthropic key is set, and OpenAI exactly when no provider variable is set |
| ParseArgs.ResolveCompactionModel | lifecycle/parseArgs.ts:146-160 | an explicit compaction model other than `default` is kept; a defaulted one has the same provider as the model |
| ParseArgs.Resolve | lifecycle/parseArgs.ts:25-164 | both names end set and no other setting differs from the flag and environment stages; only the tracing variable of the environment may change |
| ParseArgs.FlagModelBeatsEnv | lifecycle/parseArgs.ts:88-135 | a non-empty model flag other than `default` is the model in the end, whatever the environment says |
| ParseArgs.EnvModelFillsGap | lifecycle/parseArgs.ts:88-90 | without a model flag, `HARPER_AGENT_MODEL` supplies the model |
| ParseArgs.NumericEnvWins | lifecycle/parseArgs.ts:98-106 | the turn, cost and threshold variables, when set, win over the flags |
| ParseArgs.DefaultModel | lifecycle/parseArgs.ts:135-145 | the default model is Anthropic's exactly when an Anthropic key is set, Google's exactly when a Google key but none for Anthropic is set, Ollama's exactly when only the Ollama URL is set, and OpenAI's otherwise |
| ParseArgs.DefaultModelUsable | lifecycle/parseArgs.ts:135-145 | the default model belongs to OpenAI or to a provider whose variable is set |
| ParseArgs.DefaultCompactionModel | lifecycle/parseArgs.ts:149-160 | the default compaction model belongs to the same provider as the model |
| ParseArgs.DefaultCompactionSharesProvider | lifecycle/parseArgs.ts:147-178 | a compaction model left to its default ends with the model's provider, redirects included |
| ParseArgs.FallbackKeepsProvider | lifecycle/parseArgs.ts:147-148 | the key check's fallback for a missing name keeps the provider the name would have |
| ParseArgs.OneProviderAtMostOneKey | lifecycle/parseArgs.ts:147-148 | two models of one provider need at most one key |
| ParseArgs.SharedProviderOneKey | lifecycle/parseArgs.ts:147-148 | two models of one provider need at most one key, fallbacks included |
| ParseArgs.DefaultCompactionNeedsNoExtraKey | lifecycle/parseArgs.ts:147-160 | with the compaction model left to its default, the key check asks for at most one key |
| ParseArgs.WithTracingSwitch | lifecycle/parseArgs.ts:162-164 | for a model that is not OpenAI's, tracing ends up switched off unless the variable already holds a value; every other variable is kept |
| ParseArgs.MaybeRedirect | lifecycle/parseArgs.ts:167-175 | a name without a deprecation rule is kept as is; a deprecated one is replaced, announced, set in the environment and written to its setting's line, and the result is never deprecated |
| ParseArgs.RedirectKeepsProviderOf | lifecycle/parseArgs.ts:167-175 | a redirect keeps the provider of the name it replaces |
| ParseArgs.SettingNamesClean | lifecycle/parseArgs.ts:177-178 | the two setting names are distinct, have no `=` and no line break, and the replacement has no line break |
| ParseArgs.ReplacementIsNano | utils/models/deprecations.ts:21-40 | every deprecated name is replaced by `gpt-5-nano` |
| ParseArgs.RedirectWritesLine | utils/models/deprecations.ts:42-51 | a redirect writes its setting's line with the replacement |
| ParseArgs.CompactionRedirectKeepsModelLine | lifecycle/parseArgs.ts:178 | a compaction-model redirect keeps the model's line already in the file |
| ParseArgs.ModelLineWritten | lifecycle/parseArgs.ts:177 | a redirected model leaves a file holding its replacement's line |
| ParseArgs.SecondWriteKeepsModelLine | lifecycle/parseArgs.ts:178 | whether or not the compaction model is redirected, a model line already in the file survives |
| ParseArgs.PersistRedirectsAsWritten | lifecycle/parseArgs.ts:177-178 | as written, both names end set and neither is deprecated, and no other setting changes |
| ParseArgs.PersistRedirects | lifecycle/parseArgs.ts:177-178 | corrected, both names end set, neither is deprecated, and no other setting changes |
| ParseArgs.ModelRedirectPersisted | lifecycle/parseArgs.ts:177-178 | with the writes made in order, a redirected model's line survives in the file |
| ParseArgs.CompactionRedirectPersisted | lifecycle/parseArgs.ts:178 | with the writes made in order, a redirected compaction model's line is in the file |
| ParseArgs.Gpt4oIsRedirected | utils/models/deprecations.ts:21-40 | `gpt-4o` is deprecated and redirected |
| ParseArgs.WriteToEmpty | utils/files/updateEnv.ts:15-30 | writing a setting to an empty file gives exactly its line |
| ParseArgs.ModelLineAbsent | utils/files/updateEnv.ts:15-30 | a file holding only the compaction model's line has no model line |
| ParseArgs.CounterexampleArguments | lifecycle/parseArgs.ts:34-96 | `-m gpt-4o -c gpt-4o` with an empty environment sets both names to `gpt-4o` |
| ParseArgs.LostRedirect | lifecycle/parseArgs.ts:177-178 | as written, with both names `gpt-4o` and an empty file, whichever write lands last, one of the two lines is missing from the file |
| ParseArgs.BothRedirectsKept | lifecycle/parseArgs.ts:177-178 | corrected, the same input keeps both lines in the file |
| ParseArgs.ParseArgsAsWritten | lifecycle/parseArgs.ts:25-179 | a help request shows help, then a version request the version; otherwise parsing succeeds with both names set and neither deprecated |
| ParseArgs.AsWrittenDiffersOnlyInFile | lifecycle/parseArgs.ts:166-178 | parsing as written and with the writes ordered reach the same outcome, configuration, environment and warnings; only the `.env` text may differ |
| ParseArgs.RedirectIgnoresFile | lifecycle/parseArgs.ts:167-175 | what a redirect does to the name, the environment and the warning does not depend on the `.env` text it starts from |
| ParseArgs.ParseArgs | lifecycle/parseArgs.ts:25-179 | a help request shows help, then a version request the version; otherwise both names end set and neither is deprecated |

## Left out

- Real I/O: file reads and writes, process spawning, the network, timers and `process.exit` are not modelled. Each atomic file write is one state step. The environment, file contents and the clock are parameters.
- Windows path rules: paths are POSIX segment lists.
- The language-model SDK (`run`, streaming, `Runner`): its events are an input sequence, and its summaries and cost figures are oracle parameters.
- JSON serialisation: `JSON.stringify` is an oracle, so its throwing on cycles is not modelled. Nor is the `version: 1` field's role beyond being written.
- JSON values: MemoryCompaction.Sanitize and MemoryCompaction.Stamp treat arrays and strings as plain values that are not spread into objects, and the DiskSession save and load round trip ignores that `JSON.stringify` drops `undefined` fields and writes NaN as null. Neither case arises for the stored items.
- `recordTurn` and the pricing tables: utils/sessions/cost.ts is not part of this model, so costs are a parameter.
- The `isTrue` test: utils/envLoader and its truthiness rules are not part of this model; the test is an oracle.
- Environment lookup: utils/getEnv.ts is not part of this model. Lookup is assumed to read the primary name, then the legacy name.
- Default values: agent/defaults.ts is not part of this model, so they are a `Defaults` parameter. The `default` token for a service tier follows the comment at lifecycle/parseArgs.ts:133.
- Plan items: ink/models/planItem.ts is not part of this model. Only an item's `completed` field is read.
- Session ids: MemorySession is a plain list of items. An empty id is assumed to be kept as given.
- Tool approval: the error thrown by `isToolApproved` for an unknown tool is not modelled.
- Skills: `getSkillsRead` asks `agentManager.session`, which `AgentManager` does not declare, so the list is empty on every path. Its catch and its non-array check both also give the empty list. ApplyPatch.SkillsRead states both the as-written and the corrected lookup.
- ChatContext.InitialMessages: the call site reads `agentManager.initialMessages`, which `AgentManager` does not declare either, so as written the seeds are always absent and the chat always starts with the greeting alone. The member models the seeded case the code was written for.
- `updateEnv`: `$` patterns in the replacement string and regular-expression metacharacters in the key are not modelled. Keys are plain upper-case names.
- Case folding: lower-casing is ASCII-only.
- Text length: length is counted in code units of the model's `char`. The UTF-16 against code-point difference is not modelled.
- Key prompt: what is typed at the secure prompt is a function of the variable asked for, and the messages printed around the prompt are not modelled.
- Console output: colour codes (chalk) and the text of the help and version output are not modelled.
- Object key order: JavaScript lists integer-like keys first, and this is not modelled. Objects keep insertion order.
- Number parsing: numeric flags and environment values are kept as text where the source calls `parseFloat`. The model's `parseInt` is exact, while the source's returns a double and loses precision above 2^53: a rate-limit header of `9007199254740993` is stored as 9007199254740992 there and as itself here.
- PlanContext.RoundedPercent, PlanContext.Progress: the percentage is computed on exact rationals, while the source computes `completed / total * 100` in double precision and then rounds. The two differ when the double lands just below a half. For 23 of 40 the double is 57.49999999999999, which the source rounds to 57 and the model to 58.
- Rounding in general: `Math.round` on floating point is modelled as exact rational rounding, half rounding up.
- RateLimits.Usage, RateLimits.IsApproachingLimit: usage is computed on exact rationals, while the source computes `(1 - remaining / limit) * 100` in double precision. For limit 10 and remaining 9 the double is 9.999999999999998, so a threshold of 10 is not reached in the source but is reached in the model.
- UI sizes: widths, heights and row counts are integers.
- ContextLimits.TriggerTokens: the trigger floors the exact product of the window and the fraction, while modelContextLimits.ts:31 floors the double `limit * f`. For a fraction of 0.57 on a 200000-token window the double is 113999.99999999999, so the source gives 113999 and the model 114000; 0.58 gives 115999 against 116000, and 400000-token windows behave alike. The fractions the callers here pass (0.5, 0.8 and 0.95) give the same trigger in both.
- VirtualList.ResolvedHeight: a percentage height is floored on exact reals, while the source floors the double `terminalRows * (parseFloat(h) / 100)`. The two differ when the double lands just below a whole number. For `"29%"` of 100 rows the double is 28.999999999999996, so the source gives 28 rows and the model 29; 58% of 50 rows (28 against 29) and 70% of 90 rows (62 against 63) behave alike.
- Argument display: the point where long tool arguments are truncated is a parameter.
- Process-level failures: unhandled promise rejections, the abort controller's signal and signal-driven exit codes are not modelled.
- GetModel.ParseUrl, GetModel.NormalizeOllamaBaseUrl: only a scheme, a host, an optional numeric port and a path are modelled. Queries, fragments, userinfo and bracketed IPv6 hosts are not. Such text lands in the host or the port, so a URL like `http://localhost:11434?x=1` is refused as having a non-numeric port, and `http://user@host` is read with `user@host` as its host. WHATWG `URL` would accept both.
- Compaction's first item: the doc comment of `compactConversation` says the first item is kept, but the code drops it. The model follows the code.
- Variable names: the parseArgs tests use differently spelled variable names than the code. The model follows the code's `HARPER_AGENT_*` names.
- Finding 7's writes: ParseArgs.PersistRedirectsAsWritten assumes both unawaited reads of `.env` happen before either write.
- Tracked state: only the fields the modelled operations touch are modelled.
- `getStatus` in RateLimits: it returns a copy, which for an immutable value is the record itself, so it has no member of its own.
- Rendering: the cursor blink, the placeholder, the filler rows and colours are not modelled.
- `scrollToIndex`: the imperative handle and its floating-point halving are not modelled.
- VirtualList's `lastItemsLength` ref is an input of the update function.
- `useTerminalSize`: the terminal rows are a parameter.
- UI event wiring: the `agent_updated` and `setTimeout` wiring between the agent and the UI is not modelled beyond the events it emits.

## Findings

| source | as written | input that shows it | evidently intended | confidence | as-written member | corrected member |
|---|---|---|---|---|---|---|
| utils/sessions/DiskSession.ts:58-61 | With an empty session id, the fallback id `default-session` is used only while the file is opened and is not stored on the session. The first items go under `default-session` and later additions go under the empty id. | A store opened with id "" over an empty file and initial items [a]; then add [b]; then reopen with id "". The reopened store sees only [a]. The defect is latent: `createSession` (utils/sessions/createSession.ts:7-8) opens the store without an id, so no caller here passes the empty string. | The fallback id becomes the session's id, so the reopened store sees [a, b]. | not executed | DiskSession.EmptyIdLosesItems | DiskSession.EmptyIdKeepsItemsFixed |
| utils/sessions/MemoryCompactionSession.ts:150 | Compaction clears the wrapped session. Over a DiskSession that also deletes the persisted plan and the skills read. | A disk-backed session with a plan, compacted by hand or automatically. The plan afterwards is absent. | Compaction replaces the history only; plan and skills survive. | not executed | MemoryCompaction.CompactionOnDiskDropsPlan | MemoryCompaction.RunCompactionKeepingPlan |
| utils/files/paths.ts:15 | A path is refused when its relative form starts with the two characters `..`. That check also catches a child whose name begins with two dots. | Root `/w`, path `..foo`: it resolves to `/w/..foo`, which lies inside the root, yet it is refused as outside the workspace. | Only a first segment that is exactly `..` means outside. | not executed | Paths.DotDotNamedChildRefused | Paths.DotDotNamedChildAcceptedFixed |
| tools/general/setPatchAutoApproveTool.ts:27-35 | `updateEnv` is async and not awaited, so the catch never sees a failed write. The tool reports success and updates the tracked state while `.env` stays unchanged. The interpreter toggle does the same. | Enable patch auto-approval while it is unset, with the `.env` write failing. The reply says it was set; the file is unchanged. | The write is awaited, and a failure produces the error reply. | not executed | AutoApprove.FailedWriteReportedAsSuccess | AutoApprove.AwaitedReportsFailure |
| agent/runAgentForOnePass.ts:97-108 | On passing the cost ceiling the runner sets the exit code to 1, then calls `handleExit`, which exits with status 0. | Any run whose accumulated cost exceeds `maxCost`. The process ends with status 0. | The process ends with status 1. | not executed | OnePass.CeilingExitsWithZero | OnePass.CeilingExitsWithFailure |
| ink/library/wrapText.ts:19-38 | When a word longer than the width is hard-wrapped and its length is a multiple of the width, every chunk is pushed. The line that was being filled before the word is never cleared, so it is pushed a second time after the chunks. | "a xxxx" at width 2 wraps to "a", "xx", "xx", "a". | Each chunk appears once: "a", "xx", "xx". | not executed | WrapText.RepeatedLine | WrapText.WrappingKeepsText |
| tools/files/applyPatchTool.ts:24-32 | `getSkillsRead` reads `agentManager.session`, a field `AgentManager` never declares; the session lives in `trackedState.session`, where the skill and file tools record what was read. The list is therefore always empty and the skill guard is never lifted. | Create `resources/a.ts` after `automatic-apis` has been read and recorded. The patch is refused with the skill text again, on every attempt. | The lookup reads the tracked session, and a recorded skill lifts its guard. | not executed | ApplyPatch.ReadSkillStillRequiredAsWritten | ApplyPatch.ReadingSkillLiftsGuard |
| lifecycle/parseArgs.ts:177-178 | The two deprecated-model redirects each start an unawaited read-modify-write of `.env`, so the second write overwrites the first. | `-m gpt-4o -c gpt-4o` with an empty `.env`. Whichever write lands last, one of the two lines is lost. | Both redirect lines are persisted. | not executed | ParseArgs.LostRedirect | ParseArgs.BothRedirectsKept |
