/**
 * The `shell` tool: the approval decision for a batch of commands (an already approved
 * call, then the auto-approve setting, which a risky command or a command touching an
 * ignored path overrides), the banner it prints, and the text it returns for the batch.
 */
module ShellTool {
  import opened Wrappers
  import opened Strings
  import opened EnvVars
  import opened ToolApproval

  const AutoApproveVar: string := "HARPER_AGENT_AUTO_APPROVE_SHELL"
  const LegacyAutoApproveVar: string := "SHELL_AUTO_APPROVE"

  // ---- approval ----

  datatype Banner = AutoApprovedBanner | RiskyBanner | IgnoredBanner | PlainBanner

  /** The words between `\n Shell command ` and `: \n` on each banner. */
  function BannerCaption(b: Banner): string {
    match b
    case AutoApprovedBanner => "(auto-approved)"
    case _ => "approval" + ApprovalDetail(b) + " required"
  }

  /** What a banner that asks says the approval is of. */
  function ApprovalDetail(b: Banner): string {
    match b
    case RiskyBanner => " of risky command"
    case IgnoredBanner => " of ignored file interaction"
    case _ => ""
  }

  function BannerText(b: Banner): string {
    "\n Shell command " + BannerCaption(b) + ": \n"
  }

  /** Whether the user must approve, and the console lines printed on the way. */
  datatype ShellApproval = ShellApproval(needed: bool, printed: seq<string>)

  /** The position of the first command satisfying `p`, or the length when there is none. */
  function FirstIndex(commands: seq<string>, p: string -> bool): (i: nat)
    ensures i <= |commands|
    ensures forall j :: 0 <= j < i ==> !p(commands[j])
    ensures i < |commands| ==> p(commands[i])
    decreases |commands|
  {
    if |commands| == 0 || p(commands[0]) then 0
    else
      var k := FirstIndex(commands[1..], p);
      assert forall j :: 1 <= j < k + 1 ==> commands[j] == commands[1..][j - 1];
      k + 1
  }

  /** `commands.find(p)`: the first command satisfying `p`. */
  function FindFirst(commands: seq<string>, p: string -> bool): (r: Option<string>)
    ensures r.Some? <==> exists i :: 0 <= i < |commands| && p(commands[i])
    ensures r.Some? ==> p(r.value) && r.value == commands[FirstIndex(commands, p)]
  {
    var i := FirstIndex(commands, p);
    if i < |commands| then Some(commands[i]) else None
  }

  /** A found command counts only when it is truthy, that is non-empty. */
  predicate Found(r: Option<string>) {
    r.Some? && r.value != ""
  }

  /** The commands echoed under the banner, one line each. */
  function EchoLines(commands: seq<string>): (r: seq<string>)
    ensures |r| == |commands|
    ensures forall i :: 0 <= i < |commands| ==> r[i] == "  > " + commands[i]
  {
    seq(|commands|, i requires 0 <= i < |commands| => "  > " + commands[i])
  }

  function ChooseBanner(auto: bool, risky: bool, ignored: bool): Banner {
    if auto then AutoApprovedBanner
    else if risky then RiskyBanner
    else if ignored then IgnoredBanner
    else PlainBanner
  }

  /**
   * `needsApproval`: a replayed call is not asked about and prints nothing; otherwise
   * the batch is auto-approved only when the setting is `1` and no command is risky or
   * touches an ignored path.
   */
  function ShellNeedsApproval(commands: seq<string>, callId: Option<string>, isApproved: string -> bool, env: Env,
                              isRisky: string -> bool, mentionsIgnored: string -> bool): (r: ShellApproval)
    ensures Replayed(callId, isApproved) ==> r == ShellApproval(false, [])
    ensures !Replayed(callId, isApproved) ==> |r.printed| == |commands| + 1 && r.printed[1..] == EchoLines(commands)
  {
    if Replayed(callId, isApproved) then ShellApproval(false, [])
    else
      var risky := Found(FindFirst(commands, isRisky));
      var ignored := Found(FindFirst(commands, mentionsIgnored));
      var auto := GetEnv(env, AutoApproveVar, LegacyAutoApproveVar) == Some("1") && !risky && !ignored;
      ShellApproval(!auto, [BannerText(ChooseBanner(auto, risky, ignored))] + EchoLines(commands))
  }

  // ---- the returned text ----

  datatype ShellOutcome = Exit(exitCode: Option<nat>) | Timeout

  datatype CommandOutput = CommandOutput(stdout: string, stderr: string, outcome: ShellOutcome)

  /** `${exitCode}` where a signalled process has a `null` exit code. */
  function ExitCodeText(code: Option<nat>): string {
    match code
    case Some(c) => NatToString(c)
    case None => "null"
  }

  /** The two streams of one command, before the outcome line. */
  function StreamsText(o: CommandOutput): string {
    "STDOUT:\n" + o.stdout + "\nSTDERR:\n" + o.stderr
  }

  const ExitLabel: string := "EXIT CODE: "

  function OutcomeText(outcome: ShellOutcome): string {
    match outcome
    case Exit(code) => "\n" + ExitLabel + ExitCodeText(code)
    case Timeout => "\nTIMEOUT"
  }

  function FormatOne(o: CommandOutput): string {
    StreamsText(o) + OutcomeText(o.outcome)
  }

  /** `execute`'s result: each command's text, joined by `\n---\n`. */
  function FormatOutputs(outputs: seq<CommandOutput>): (r: string)
    ensures |outputs| == 1 ==> r == FormatOne(outputs[0])
    ensures |outputs| > 1 ==> r == FormatOne(outputs[0]) + "\n---\n" + FormatOutputs(outputs[1..])
    decreases |outputs|
  {
    if |outputs| == 0 then ""
    else if |outputs| == 1 then FormatOne(outputs[0])
    else FormatOne(outputs[0]) + "\n---\n" + FormatOutputs(outputs[1..])
  }

  // ---- properties ----

  predicate AnyMatches(commands: seq<string>, p: string -> bool) {
    exists i :: 0 <= i < |commands| && p(commands[i])
  }

  /** With a predicate the empty command never satisfies, "found" is "some command matches". */
  lemma FoundIffAny(commands: seq<string>, p: string -> bool)
    requires !p("")
    ensures Found(FindFirst(commands, p)) <==> AnyMatches(commands, p)
  {
  }

  /**
   * The approval policy in one statement: the user is asked exactly when the call is
   * not replayed and the setting is not `1` or some command is risky or touches an
   * ignored path. (Neither check matches the empty command.)
   */
  lemma ShellApprovalIff(commands: seq<string>, callId: Option<string>, isApproved: string -> bool, env: Env,
                         isRisky: string -> bool, mentionsIgnored: string -> bool)
    requires !isRisky("") && !mentionsIgnored("")
    ensures ShellNeedsApproval(commands, callId, isApproved, env, isRisky, mentionsIgnored).needed <==>
      !Replayed(callId, isApproved) &&
      (GetEnv(env, AutoApproveVar, LegacyAutoApproveVar) != Some("1")
       || AnyMatches(commands, isRisky) || AnyMatches(commands, mentionsIgnored))
  {
    FoundIffAny(commands, isRisky);
    FoundIffAny(commands, mentionsIgnored);
  }

  /** One risky command puts the whole batch up for approval, under the risky banner, whatever the setting. */
  lemma RiskyCommandForcesApproval(commands: seq<string>, i: nat, callId: Option<string>, isApproved: string -> bool,
                                   env: Env, isRisky: string -> bool, mentionsIgnored: string -> bool)
    requires !isRisky("") && i < |commands| && isRisky(commands[i])
    requires !Replayed(callId, isApproved)
    ensures var r := ShellNeedsApproval(commands, callId, isApproved, env, isRisky, mentionsIgnored);
      r.needed && r.printed[0] == BannerText(RiskyBanner)
  {
    FoundIffAny(commands, isRisky);
  }

  /** A command touching an ignored path forces approval; the risky banner still wins when both apply. */
  lemma IgnoredPathForcesApproval(commands: seq<string>, i: nat, callId: Option<string>, isApproved: string -> bool,
                                  env: Env, isRisky: string -> bool, mentionsIgnored: string -> bool)
    requires !isRisky("") && !mentionsIgnored("") && i < |commands| && mentionsIgnored(commands[i])
    requires !Replayed(callId, isApproved)
    ensures var r := ShellNeedsApproval(commands, callId, isApproved, env, isRisky, mentionsIgnored);
      r.needed && r.printed[0] == BannerText(if AnyMatches(commands, isRisky) then RiskyBanner else IgnoredBanner)
  {
    FoundIffAny(commands, isRisky);
    FoundIffAny(commands, mentionsIgnored);
  }

  /** Without the setting, every call that is not replayed is asked about. */
  lemma NoSettingAlwaysAsks(commands: seq<string>, callId: Option<string>, isApproved: string -> bool, env: Env,
                            isRisky: string -> bool, mentionsIgnored: string -> bool)
    requires AutoApproveVar !in env && LegacyAutoApproveVar !in env
    ensures ShellNeedsApproval(commands, callId, isApproved, env, isRisky, mentionsIgnored).needed
      <==> !Replayed(callId, isApproved)
  {
  }

  /** Only the auto-approved banner has the auto-approved text. */
  lemma AutoBannerDistinct(b: Banner)
    ensures BannerText(b) == BannerText(AutoApprovedBanner) <==> b == AutoApprovedBanner
  {
    if b != AutoApprovedBanner {
      var head, tail := "\n Shell command ", ": \n";
      FramedAt(head, BannerCaption(b), tail);
      FramedAt(head, BannerCaption(AutoApprovedBanner), tail);
      AskingCaption(b);
      assert BannerCaption(AutoApprovedBanner)[0] == '(';
      assert BannerText(b)[|head|] != BannerText(AutoApprovedBanner)[|head|];
    }
  }

  /** Every banner that asks says "approval" first, where the auto-approved one opens a parenthesis. */
  lemma AskingCaption(b: Banner)
    requires b != AutoApprovedBanner
    ensures |BannerCaption(b)| > 0 && BannerCaption(b)[0] == 'a'
  {
    var word := "approval";
    assert word[0] == 'a';
    assert BannerCaption(b) == word + (ApprovalDetail(b) + " required");
  }

  /** The first character of framed text sits just after the head. */
  lemma FramedAt(head: string, x: string, tail: string)
    requires |x| > 0
    ensures |head + x + tail| > |head| && (head + x + tail)[|head|] == x[0]
  {
  }

  /** The banner says "auto-approved" exactly when the user is not asked (for a call that is not replayed). */
  lemma BannerMatchesDecision(commands: seq<string>, callId: Option<string>, isApproved: string -> bool, env: Env,
                              isRisky: string -> bool, mentionsIgnored: string -> bool)
    requires !Replayed(callId, isApproved)
    ensures var r := ShellNeedsApproval(commands, callId, isApproved, env, isRisky, mentionsIgnored);
      r.printed[0] == BannerText(AutoApprovedBanner) <==> !r.needed
  {
    var risky := Found(FindFirst(commands, isRisky));
    var ignored := Found(FindFirst(commands, mentionsIgnored));
    var auto := GetEnv(env, AutoApproveVar, LegacyAutoApproveVar) == Some("1") && !risky && !ignored;
    AutoBannerDistinct(ChooseBanner(auto, risky, ignored));
  }
}
