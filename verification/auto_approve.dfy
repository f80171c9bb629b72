/**
 * The two tools that switch automatic approval on or off: one for patches, one for the
 * code interpreter. Each writes `1` or `0` to its variable in the process and in `.env`,
 * mirrors the choice in the settings pane, and asks the user only when the value changes.
 */
module AutoApprove {
  import opened Wrappers
  import opened EnvVars
  import UpdateEnv
  import ApplyPatch

  datatype Setting = PatchSetting | InterpreterSetting

  function Variable(s: Setting): string {
    match s
    case PatchSetting => ApplyPatch.AutoApproveVar
    case InterpreterSetting => "HARPER_AGENT_AUTO_APPROVE_CODE_INTERPRETER"
  }

  function LegacyVariable(s: Setting): string {
    match s
    case PatchSetting => ApplyPatch.LegacyAutoApproveVar
    case InterpreterSetting => "CODE_INTERPRETER_AUTO_APPROVE"
  }

  /** The settings pane's copy of the two flags. */
  datatype Tracked = Tracked(autoApprovePatches: bool, autoApproveCodeInterpreter: bool)

  /** What a tool call leaves behind: environment, `.env` text, pane flags, whether the pane was told, the reply. */
  datatype Outcome = Outcome(env: Env, envFile: Option<string>, tracked: Tracked, settingsUpdated: bool, output: string)

  function TargetValue(autoApprove: bool): string {
    if autoApprove then "1" else "0"
  }

  function Current(env: Env, s: Setting): Option<string> {
    GetEnv(env, Variable(s), LegacyVariable(s))
  }

  /** `needsApproval`: the user is asked unless the setting already has the requested value. */
  function ToggleNeedsApproval(env: Env, s: Setting, autoApprove: bool): (r: bool)
    ensures !r ==> Current(env, s).Some?
  {
    Current(env, s) != Some(TargetValue(autoApprove))
  }

  function SetTracked(t: Tracked, s: Setting, autoApprove: bool): (r: Tracked)
    ensures s == PatchSetting ==> r == t.(autoApprovePatches := autoApprove)
    ensures s == InterpreterSetting ==> r == t.(autoApproveCodeInterpreter := autoApprove)
  {
    match s
    case PatchSetting => t.(autoApprovePatches := autoApprove)
    case InterpreterSetting => t.(autoApproveCodeInterpreter := autoApprove)
  }

  function AlreadySetMessage(s: Setting, value: string): string {
    Variable(s) + " is already set to " + value + "."
  }

  function SetMessage(s: Setting, value: string): string {
    Variable(s) + " has been set to " + value + " in .env and current process."
  }

  function UpdateErrorMessage(message: string): string {
    "Error updating .env file: " + message
  }

  /**
   * `execute` as written. `ioError` is the message a failing read or write of `.env`
   * would reject with. `updateEnv` is not awaited: the process variable is set before
   * its first `await`, a failure of the file update never reaches the `catch`, and the
   * reply claims success either way.
   */
  function ToggleExecute(env: Env, file: Option<string>, t: Tracked, s: Setting, autoApprove: bool,
                         ioError: Option<string>): (r: Outcome)
    ensures !ToggleNeedsApproval(env, s, autoApprove) ==>
      r == Outcome(env, file, t, false, AlreadySetMessage(s, TargetValue(autoApprove)))
    ensures ToggleNeedsApproval(env, s, autoApprove) ==>
      r.env == env[Variable(s) := TargetValue(autoApprove)] && r.tracked == SetTracked(t, s, autoApprove)
      && r.settingsUpdated && r.output == SetMessage(s, TargetValue(autoApprove))
    ensures ToggleNeedsApproval(env, s, autoApprove) && ioError.None? ==>
      r.envFile == Some(UpdateEnv.Update(env, file, Variable(s), TargetValue(autoApprove)).1)
    ensures ioError.Some? ==> r.envFile == file
  {
    var value := TargetValue(autoApprove);
    if Current(env, s) == Some(value) then
      Outcome(env, file, t, false, AlreadySetMessage(s, value))
    else
      var (env', content) := UpdateEnv.Update(env, file, Variable(s), value);
      var file' := if ioError.None? then Some(content) else file;
      Outcome(env', file', SetTracked(t, s, autoApprove), true, SetMessage(s, value))
  }

  /**
   * `execute` with the update awaited, as the `catch` evidently intends: a failing
   * update is reported, and the pane is neither changed nor told.
   */
  function ToggleExecuteAwaited(env: Env, file: Option<string>, t: Tracked, s: Setting, autoApprove: bool,
                                ioError: Option<string>): (r: Outcome)
    ensures !ToggleNeedsApproval(env, s, autoApprove) ==>
      r == Outcome(env, file, t, false, AlreadySetMessage(s, TargetValue(autoApprove)))
    ensures ToggleNeedsApproval(env, s, autoApprove) ==> r.env == env[Variable(s) := TargetValue(autoApprove)]
    ensures ToggleNeedsApproval(env, s, autoApprove) && ioError.Some? ==>
      r == Outcome(env[Variable(s) := TargetValue(autoApprove)], file, t, false, UpdateErrorMessage(ioError.value))
    ensures ioError.None? ==> r == ToggleExecute(env, file, t, s, autoApprove, ioError)
  {
    var value := TargetValue(autoApprove);
    if Current(env, s) == Some(value) then
      Outcome(env, file, t, false, AlreadySetMessage(s, value))
    else if ioError.Some? then
      Outcome(env[Variable(s) := value], file, t, false, UpdateErrorMessage(ioError.value))
    else
      ToggleExecute(env, file, t, s, autoApprove, ioError)
  }

  // ---- properties ----

  /** The tool asks exactly when running it would change the process environment. */
  lemma NeedsApprovalIffChange(env: Env, file: Option<string>, t: Tracked, s: Setting, autoApprove: bool,
                               ioError: Option<string>)
    ensures ToggleNeedsApproval(env, s, autoApprove) <==> ToggleExecute(env, file, t, s, autoApprove, ioError).env != env
  {
    if ToggleNeedsApproval(env, s, autoApprove) {
      var v := Variable(s);
      var env' := ToggleExecute(env, file, t, s, autoApprove, ioError).env;
      assert env'[v] == TargetValue(autoApprove);
      if v in env {
        assert env[v] != TargetValue(autoApprove);
      }
    }
  }

  /** After the tool has run, the setting holds the requested value and a repeat call asks nothing. */
  lemma ToggleReachesTarget(env: Env, file: Option<string>, t: Tracked, s: Setting, autoApprove: bool,
                            ioError: Option<string>)
    ensures var r := ToggleExecute(env, file, t, s, autoApprove, ioError);
      Current(r.env, s) == Some(TargetValue(autoApprove)) && !ToggleNeedsApproval(r.env, s, autoApprove)
    ensures var r := ToggleExecuteAwaited(env, file, t, s, autoApprove, ioError);
      Current(r.env, s) == Some(TargetValue(autoApprove)) && !ToggleNeedsApproval(r.env, s, autoApprove)
  {
    if ToggleNeedsApproval(env, s, autoApprove) {
      GetEnvAfterSet(env, Variable(s), LegacyVariable(s), TargetValue(autoApprove));
    }
  }

  /** Running the tool twice with the same request is running it once, then an "already set" reply. */
  lemma ToggleIdempotent(env: Env, file: Option<string>, t: Tracked, s: Setting, autoApprove: bool,
                         ioError: Option<string>, ioError2: Option<string>)
    ensures var r := ToggleExecute(env, file, t, s, autoApprove, ioError);
      var r2 := ToggleExecute(r.env, r.envFile, r.tracked, s, autoApprove, ioError2);
      r2 == Outcome(r.env, r.envFile, r.tracked, false, AlreadySetMessage(s, TargetValue(autoApprove)))
  {
    ToggleReachesTarget(env, file, t, s, autoApprove, ioError);
  }

  /** Switching patch approval on makes the patch tool auto-approve from then on. */
  lemma PatchToggleEnablesAutoApproval(env: Env, file: Option<string>, t: Tracked, ioError: Option<string>)
    ensures ApplyPatch.AutoApproved(ToggleExecute(env, file, t, PatchSetting, true, ioError).env)
    ensures ToggleExecute(env, file, t, PatchSetting, false, ioError).env == env
      ==> !ApplyPatch.AutoApproved(env)
  {
    ToggleReachesTarget(env, file, t, PatchSetting, true, ioError);
    ToggleReachesTarget(env, file, t, PatchSetting, false, ioError);
  }

  /** Only the chosen pane flag changes. */
  lemma OtherFlagUntouched(env: Env, file: Option<string>, t: Tracked, s: Setting, autoApprove: bool,
                           ioError: Option<string>)
    ensures var r := ToggleExecute(env, file, t, s, autoApprove, ioError);
      (s == PatchSetting ==> r.tracked.autoApproveCodeInterpreter == t.autoApproveCodeInterpreter)
      && (s == InterpreterSetting ==> r.tracked.autoApprovePatches == t.autoApprovePatches)
  {
  }

  /** As written: a failed `.env` update still gets the success reply, and the file is unchanged. */
  lemma FailedWriteReportedAsSuccess(env: Env, file: Option<string>, t: Tracked, message: string)
    requires Current(env, PatchSetting) == None
    ensures var r := ToggleExecute(env, file, t, PatchSetting, true, Some(message));
      r.output == SetMessage(PatchSetting, "1") && r.envFile == file && r.tracked.autoApprovePatches
  {
  }

  /** The three replies are told apart by their text. */
  lemma RepliesDistinct(s: Setting, v: string, w: string, m: string)
    ensures AlreadySetMessage(s, v) != UpdateErrorMessage(m)
    ensures SetMessage(s, w) != UpdateErrorMessage(m)
    ensures AlreadySetMessage(s, v) != SetMessage(s, w)
  {
    var n := Variable(s);
    assert n[0] == 'H';
    assert AlreadySetMessage(s, v)[0] == 'H' && SetMessage(s, w)[0] == 'H';
    assert UpdateErrorMessage(m)[0] == 'E';
    assert AlreadySetMessage(s, v)[|n| + 1] == 'i';
    assert SetMessage(s, w)[|n| + 1] == 'h';
  }

  /** Corrected: the reply reports a failure exactly when the update failed. */
  lemma AwaitedReportsFailure(env: Env, file: Option<string>, t: Tracked, s: Setting, autoApprove: bool,
                              ioError: Option<string>)
    ensures var r := ToggleExecuteAwaited(env, file, t, s, autoApprove, ioError);
      (ioError.Some? && ToggleNeedsApproval(env, s, autoApprove)) <==> r.output == UpdateErrorMessage(ioError.GetOr(""))
    ensures var r := ToggleExecuteAwaited(env, file, t, s, autoApprove, ioError);
      r.output == SetMessage(s, TargetValue(autoApprove)) ==>
        r.envFile == Some(UpdateEnv.UpdateContent(file.GetOr(""), Variable(s), TargetValue(autoApprove)))
  {
    var v := TargetValue(autoApprove);
    RepliesDistinct(s, v, v, ioError.GetOr(""));
  }
}
