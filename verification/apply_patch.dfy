/**
 * The `apply_patch` tool: a skill guard that sends the model to read a required skill
 * before it edits certain files, the approval decision (guard, then replay, then the
 * auto-approve setting, then asking the user), and the dispatch to the workspace editor.
 */
module ApplyPatch {
  import opened Wrappers
  import opened Strings
  import opened EnvVars
  import opened Paths
  import opened WorkspaceEditor
  import opened ToolApproval

  const AutomaticApis: string := "automatic-apis"
  const TablesWithSchemas: string := "adding-tables-with-schemas"

  const AutoApproveVar: string := "HARPER_AGENT_AUTO_APPROVE_PATCHES"
  const LegacyAutoApproveVar: string := "APPLY_PATCH_AUTO_APPROVE"

  // ---- path normalisation ----

  function ReplaceBackslashes(p: string): (r: string)
    ensures |r| == |p|
    ensures forall i :: 0 <= i < |p| ==> r[i] == (if p[i] == '\\' then '/' else p[i])
  {
    seq(|p|, i requires 0 <= i < |p| => if p[i] == '\\' then '/' else p[i])
  }

  /** `p.replace(/\\/g, '/').replace(/^\.\/?/, '')`. */
  function NormalizedPath(p: string): (r: string)
    ensures '\\' !in r
    ensures var q := ReplaceBackslashes(p); |q| - 2 <= |r| <= |q| && r == q[|q| - |r|..]
  {
    var q := ReplaceBackslashes(p);
    if StartsWith(q, "./") then q[2..]
    else if StartsWith(q, ".") then q[1..]
    else q
  }

  // ---- the skill guard ----

  predicate IsResourcesPath(p: string) {
    Contains(p, "/resources/") || StartsWith(p, "resources/") || EndsWith(p, "resources.ts") || EndsWith(p, "resources.js")
  }

  /** The first candidate that is an available skill. */
  function PickExistingSkill(candidates: seq<string>, available: seq<string>): (r: Option<string>)
    ensures r.Some? <==> exists i :: 0 <= i < |candidates| && candidates[i] in available
    ensures r.Some? ==> r.value in candidates && r.value in available
  {
    if |candidates| == 0 then None
    else if candidates[0] in available then Some(candidates[0])
    else PickExistingSkill(candidates[1..], available)
  }

  /**
   * `requiredSkillForOperation`: the skill the model must read before this edit, given
   * the skills it has read and the skills that exist.
   */
  function RequiredSkill(path: string, kind: OpKind, read: seq<string>, available: seq<string>): (r: Option<string>)
    ensures kind == DeleteFile ==> r == None
    ensures r.Some? ==> r.value in available && r.value !in read
    ensures r == Some(AutomaticApis) ==> IsResourcesPath(NormalizedPath(path))
    ensures r == Some(TablesWithSchemas) ==> EndsWith(NormalizedPath(path), ".graphql")
    ensures r.Some? ==> r.value == AutomaticApis || r.value == TablesWithSchemas
  {
    if kind == DeleteFile then None
    else
      var p := NormalizedPath(path);
      if IsResourcesPath(p) && AutomaticApis !in read then PickExistingSkill([AutomaticApis], available)
      else if EndsWith(p, ".graphql") && TablesWithSchemas !in read then PickExistingSkill([TablesWithSchemas], available)
      else None
  }

  // ---- the skills-read record ----

  /**
   * The skills `getSkillsRead` reports, given the record `recorded` of the tracked
   * session. As written it asks `agentManager.session`, a field `AgentManager` never
   * declares (the session lives in the tracked state), so the optional chain always
   * yields nothing and the answer is the empty list. Corrected, it reads the tracked
   * session's record.
   */
  function SkillsRead(recorded: seq<string>, asWritten: bool): seq<string> {
    if asWritten then [] else recorded
  }

  /**
   * `requiredSkillForOperation` as written: what the session recorded plays no part, so
   * a resources path needs `automatic-apis` whenever that skill exists, and otherwise a
   * `.graphql` path needs `adding-tables-with-schemas` whenever that skill exists.
   */
  function RequiredSkillAsWritten(path: string, kind: OpKind, recorded: seq<string>, available: seq<string>): (r: Option<string>)
    ensures kind == DeleteFile ==> r == None
    ensures kind != DeleteFile && IsResourcesPath(NormalizedPath(path)) && AutomaticApis in available
      ==> r == Some(AutomaticApis)
    ensures kind != DeleteFile && !IsResourcesPath(NormalizedPath(path))
      && EndsWith(NormalizedPath(path), ".graphql") && TablesWithSchemas in available
      ==> r == Some(TablesWithSchemas)
    ensures r.Some? ==> r.value in available
  {
    RequiredSkill(path, kind, SkillsRead(recorded, true), available)
  }

  /** `requiredSkillForOperation` reading the tracked session: a skill recorded as read is never required. */
  function RequiredSkillFixed(path: string, kind: OpKind, recorded: seq<string>, available: seq<string>): (r: Option<string>)
    ensures r.Some? ==> r.value in available && r.value !in recorded
    ensures kind == DeleteFile ==> r == None
    ensures AutomaticApis in recorded && TablesWithSchemas in recorded ==> r == None
  {
    RequiredSkill(path, kind, SkillsRead(recorded, false), available)
  }

  // ---- approval ----

  datatype UiEvent =
    | RegisterToolInfo(kind: OpKind, path: string, diff: string, callId: string)
    | OpenApprovalViewer(kind: OpKind, path: string, diff: string, askedFor: Option<string>)

  /** Whether the user must approve, and the events sent to the interface on the way. */
  datatype Approval = Approval(needed: bool, events: seq<UiEvent>)

  predicate AutoApproved(env: Env) {
    GetEnv(env, AutoApproveVar, LegacyAutoApproveVar) == Some("1")
  }

  /**
   * `needsApproval`: a guarded operation never asks, then an already approved call,
   * then the auto-approve setting; otherwise the approval viewer opens. A throwing
   * listener (`emitFails`) makes the whole decision `false`.
   */
  function NeedsApproval(op: Operation, callId: Option<string>, isApproved: string -> bool, env: Env,
                         read: seq<string>, available: seq<string>, emitFails: bool): (r: Approval)
    ensures RequiredSkill(op.path, op.kind, read, available).Some? ==> r == Approval(false, [])
    ensures Replayed(callId, isApproved) ==> r == Approval(false, [])
    ensures |r.events| <= 1
  {
    if RequiredSkill(op.path, op.kind, read, available).Some? then Approval(false, [])
    else if Replayed(callId, isApproved) then Approval(false, [])
    else if AutoApproved(env) then
      if HasCallId(callId) && !emitFails then
        Approval(false, [RegisterToolInfo(op.kind, op.path, op.diff, callId.value)])
      else Approval(false, [])
    else if emitFails then Approval(false, [])
    else Approval(true, [OpenApprovalViewer(op.kind, op.path, op.diff, callId)])
  }

  // ---- execution ----

  datatype ExecStatus = ExecCompleted | ExecFailed | FailedSkillGuarded

  datatype ExecResult = ExecResult(status: ExecStatus, output: string)

  function KindName(kind: OpKind): string {
    match kind
    case CreateFile => "create_file"
    case UpdateFile => "update_file"
    case OverwriteFile => "overwrite_file"
    case DeleteFile => "delete_file"
  }

  function FromEditor(r: PatchResult): ExecResult {
    ExecResult(if r.status == Completed then ExecCompleted else ExecFailed, r.output)
  }

  /**
   * `execute`: a guarded operation returns the skill text (from `skillText`) instead of
   * editing; create, update and overwrite refuse an empty diff; everything else goes to
   * the editor.
   */
  function Execute(files: Files, ed: Editor, op: Operation, read: seq<string>, available: seq<string>,
                   skillText: string -> string): (r: (Files, ExecResult))
    requires Normal(ed.root)
    ensures RequiredSkill(op.path, op.kind, read, available).Some? ==>
      r == (files, ExecResult(FailedSkillGuarded, skillText(RequiredSkill(op.path, op.kind, read, available).value)))
    ensures op.kind != DeleteFile && op.diff == "" && RequiredSkill(op.path, op.kind, read, available).None? ==>
      r == (files, ExecResult(ExecFailed, "Error: diff is required for " + KindName(op.kind)))
    ensures r.1.status != ExecCompleted ==> r.0 == files
  {
    var needed := RequiredSkill(op.path, op.kind, read, available);
    if needed.Some? then (files, ExecResult(FailedSkillGuarded, skillText(needed.value)))
    else if op.kind != DeleteFile && op.diff == "" then
      (files, ExecResult(ExecFailed, "Error: diff is required for " + KindName(op.kind)))
    else
      var (after, result) := Apply(files, ed, op);
      FailureWritesNothing(files, ed, op);
      (after, FromEditor(result))
  }

  // ---- properties ----

  /** The approval policy in one statement: the user is asked exactly in the last case. */
  lemma NeedsApprovalIff(op: Operation, callId: Option<string>, isApproved: string -> bool, env: Env,
                         read: seq<string>, available: seq<string>, emitFails: bool)
    ensures var r := NeedsApproval(op, callId, isApproved, env, read, available, emitFails);
      r.needed <==>
        RequiredSkill(op.path, op.kind, read, available).None? && !Replayed(callId, isApproved)
        && !AutoApproved(env) && !emitFails
    ensures var r := NeedsApproval(op, callId, isApproved, env, read, available, emitFails);
      r.needed ==> r.events == [OpenApprovalViewer(op.kind, op.path, op.diff, callId)]
  {
  }

  /** A guarded operation neither asks the user nor edits anything, even for an approved call. */
  lemma GuardedOperationNeverEdits(files: Files, ed: Editor, op: Operation, callId: Option<string>,
                                   isApproved: string -> bool, env: Env, read: seq<string>,
                                   available: seq<string>, skillText: string -> string, emitFails: bool)
    requires Normal(ed.root)
    requires RequiredSkill(op.path, op.kind, read, available).Some?
    ensures !NeedsApproval(op, callId, isApproved, env, read, available, emitFails).needed
    ensures Execute(files, ed, op, read, available, skillText).0 == files
    ensures Execute(files, ed, op, read, available, skillText).1.status == FailedSkillGuarded
  {
  }

  /** Without a guard and with a diff (or a delete), `execute` is exactly the editor operation. */
  lemma ExecuteIsEditor(files: Files, ed: Editor, op: Operation, read: seq<string>, available: seq<string>,
                        skillText: string -> string)
    requires Normal(ed.root)
    requires RequiredSkill(op.path, op.kind, read, available).None?
    requires op.kind == DeleteFile || op.diff != ""
    ensures Execute(files, ed, op, read, available, skillText).0 == Apply(files, ed, op).0
    ensures Execute(files, ed, op, read, available, skillText).1 == FromEditor(Apply(files, ed, op).1)
  {
  }

  /** A resources path asks for `automatic-apis` first and never reaches the `.graphql` rule. */
  lemma ResourcesGuardShadowsSchemaGuard(path: string, kind: OpKind, read: seq<string>, available: seq<string>)
    requires kind != DeleteFile
    requires IsResourcesPath(NormalizedPath(path)) && EndsWith(NormalizedPath(path), ".graphql")
    requires AutomaticApis !in read && AutomaticApis !in available
    ensures RequiredSkill(path, kind, read, available) == None
  {
  }

  /**
   * As written, recording skills never changes the decision: whatever the session holds,
   * the guard decides as if nothing had been read.
   */
  lemma GuardNeverLiftsAsWritten(path: string, kind: OpKind, recorded: seq<string>, available: seq<string>)
    ensures RequiredSkillAsWritten(path, kind, recorded, available) == RequiredSkill(path, kind, [], available)
    ensures RequiredSkillAsWritten(path, kind, recorded, available)
      == RequiredSkillFixed(path, kind, [], available)
  {
  }

  /**
   * As written, a file under `resources/` stays refused after `automatic-apis` has been
   * read: the edit returns the skill text again and writes nothing, on every attempt.
   */
  lemma ReadSkillStillRequiredAsWritten(files: Files, ed: Editor, diff: string, skillText: string -> string)
    requires Normal(ed.root)
    ensures var op := Operation(CreateFile, "resources/a.ts", diff);
      var recorded, available := [AutomaticApis], [AutomaticApis];
      RequiredSkillAsWritten(op.path, op.kind, recorded, available) == Some(AutomaticApis)
      && RequiredSkillFixed(op.path, op.kind, recorded, available) == None
      && Execute(files, ed, op, SkillsRead(recorded, true), available, skillText)
         == (files, ExecResult(FailedSkillGuarded, skillText(AutomaticApis)))
  {
    var q := ReplaceBackslashes("resources/a.ts");
    assert q == "resources/a.ts";
    assert q[0] == 'r';
    assert NormalizedPath("resources/a.ts") == q;
    assert StartsWith(q, "resources/");
  }

  /** Corrected: once the required skill has been read, the guard for it is lifted. */
  lemma ReadingSkillLiftsGuard(path: string, kind: OpKind, recorded: seq<string>, available: seq<string>)
    requires RequiredSkillFixed(path, kind, recorded, available).Some?
    ensures var needed := RequiredSkillFixed(path, kind, recorded, available).value;
      RequiredSkillFixed(path, kind, recorded + [needed], available) != Some(needed)
  {
  }

  /** A `./` prefix is dropped and nothing else changes for a path without backslashes. */
  lemma DotSlashStripped(p: string)
    requires '\\' !in p
    ensures NormalizedPath("./" + p) == p
  {
    assert ReplaceBackslashes("./" + p) == "./" + p;
  }

  /** A path without backslashes that does not start with `.` is already normalised. */
  lemma PlainPathUnchanged(p: string)
    requires '\\' !in p && (|p| == 0 || p[0] != '.')
    ensures NormalizedPath(p) == p
  {
    assert ReplaceBackslashes(p) == p;
  }

  /** A single leading dot is stripped even when it belongs to a file name. */
  lemma LeadingDotOfNameStripped(p: string)
    requires '\\' !in p && |p| > 0 && p[0] != '/' && p[0] != '\\'
    ensures NormalizedPath("." + p) == p
  {
    var q := "." + p;
    assert ReplaceBackslashes(q) == q;
    assert q[1] == p[0];
    assert !StartsWith(q, "./");
    assert q[1..] == p;
  }
}
