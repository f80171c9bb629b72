/**
 * `AgentManager`: the one-time set-up of the agent, the streamed `runTask` with its shell
 * bookkeeping and cost ceiling, and the hand-off of a pending approval to the next run.
 */
module AgentManager {
  import opened Wrappers
  import opened Strings
  import opened JsValues
  import opened EnvVars
  import opened StreamEvents
  import opened UiEvents
  import ShowError
  import ShellTool
  import OnePass

  // ---- set-up ----

  datatype Config = Config(model: Option<string>, compactionModel: Option<string>, provider: string, apiKey: Option<string>)

  /** The SDK's run state: the pending interruptions and the decisions recorded on it. */
  datatype RunState = RunState(interruptions: seq<string>, approved: seq<string>, rejected: seq<string>)

  datatype Manager = Manager(
    initialized: bool,
    hasAgentAndSession: bool,
    shellCommandCount: int,
    approvalState: Option<RunState>,
    turnsRecorded: nat,
    model: Option<string>,
    compactionModel: Option<string>,
    env: Env)

  /** The variable an API key is written to, for the three providers that take one here. */
  function ApiKeyVar(provider: string): Option<string> {
    if provider == "OpenAI" then Some("OPENAI_API_KEY")
    else if provider == "Anthropic" then Some("ANTHROPIC_API_KEY")
    else if provider == "Google" then Some("GOOGLE_GENERATIVE_AI_API_KEY")
    else None
  }

  function WithApiKey(env: Env, c: Config): (r: Env)
    ensures c.apiKey.None? || c.apiKey == Some("") || ApiKeyVar(c.provider).None? ==> r == env
    ensures c.apiKey.Some? && c.apiKey.value != "" && ApiKeyVar(c.provider).Some? ==>
      r == env[ApiKeyVar(c.provider).value := c.apiKey.value]
  {
    match (c.apiKey, ApiKeyVar(c.provider))
    case (Some(key), Some(v)) => if key != "" then env[v := key] else env
    case _ => env
  }

  /** What `initialize` leaves: the manager, what it emitted, and the prompt from standard input it hands to `runTask`. */
  datatype Initialized = Initialized(manager: Manager, emitted: seq<Emit>, startsTask: Option<string>)

  /**
   * `initialize`: a second call returns at once. Otherwise the models are recorded, a
   * supplied key goes to its provider's variable, the agent and session are created, and
   * a prompt read from standard input is shown and run.
   */
  function Initialize(m: Manager, c: Config, stdinPrompt: Option<string>): (r: Initialized)
    ensures m.initialized ==> r == Initialized(m, [], None)
    ensures !m.initialized ==> r.manager.initialized && r.manager.hasAgentAndSession
    ensures !m.initialized ==> r.manager.model == c.model && r.manager.compactionModel == c.compactionModel
    ensures !m.initialized ==> r.manager.env == WithApiKey(m.env, c)
    ensures !m.initialized ==> (r.startsTask.Some? <==> stdinPrompt.Some? && stdinPrompt.value != "")
  {
    if m.initialized then Initialized(m, [], None)
    else
      var m' := m.(initialized := true, hasAgentAndSession := true, model := c.model,
                   compactionModel := c.compactionModel, env := WithApiKey(m.env, c));
      match stdinPrompt
      case Some(prompt) =>
        if prompt != "" then Initialized(m', [PushNewMessages([NewMessage(UserMessage, prompt, None)])], Some(prompt))
        else Initialized(m', [], None)
      case None => Initialized(m', [], None)
  }

  // ---- shell exit codes ----

  const ExitMarker: string := "EXIT CODE: "

  /** `EXIT CODE: (\d+)` matched at position `i`: the digits. */
  function ExitCodeAt(s: string, i: nat): (r: Option<string>)
    requires i <= |s|
    ensures r.Some? ==> StartsWith(s[i..], ExitMarker) && |r.value| > 0 && AllDigits(r.value)
  {
    if StartsWith(s[i..], ExitMarker) then
      var d := DigitPrefix(s[i + |ExitMarker|..]);
      if |d| > 0 then Some(d) else None
    else None
  }

  /** The position of the leftmost match at or after `i`, or `|s| + 1` when there is none. */
  function FirstExitAt(s: string, i: nat): (j: nat)
    requires i <= |s|
    ensures i <= j <= |s| + 1
    ensures forall k :: i <= k < j && k <= |s| ==> ExitCodeAt(s, k).None?
    ensures j <= |s| ==> ExitCodeAt(s, j).Some?
    decreases |s| - i
  {
    if ExitCodeAt(s, i).Some? then i
    else if i == |s| then |s| + 1
    else FirstExitAt(s, i + 1)
  }

  /** `s.match(/EXIT CODE: (\d+)/)?.[1]`: the digits of the leftmost match. */
  function FindExitCode(s: string): (r: Option<string>)
    ensures r.None? <==> forall k :: 0 <= k <= |s| ==> ExitCodeAt(s, k).None?
    ensures r.Some? ==> r == ExitCodeAt(s, FirstExitAt(s, 0))
  {
    var j := FirstExitAt(s, 0);
    if j <= |s| then ExitCodeAt(s, j) else None
  }

  /** The exit code read from a shell tool's result: the first `EXIT CODE: n`, else 0. */
  function ParseExitCode(result: Value): (r: int)
    ensures !result.Str? ==> r == 0
    ensures result.Str? && FindExitCode(result.s).None? ==> r == 0
    ensures r >= 0
  {
    if result.Str? then
      match FindExitCode(result.s)
      case Some(digits) =>
        DigitPrefixOfDigits(digits);
        assert TrimStart(digits) == digits by { TrimStartKeeps(digits); }
        ParseInt(digits).GetOr(0)
      case None => 0
    else 0
  }

  // ---- `runTask` ----

  /** The state `runTask`'s loop carries. */
  datatype Run = Run(started: bool, shellCommandCount: int, emitted: seq<Emit>)

  /** `name === 'shell' || name === 'shell_call'` for the run item's raw item. */
  predicate IsShellItem(item: Value, o: OnePass.Oracles) {
    IsShellName(ToolName(RawItem(item), o.str))
  }

  function RunStep(r: Run, e: Event, o: OnePass.Oracles): (r': Run)
    ensures |r'.emitted| >= |r.emitted| && r'.emitted[..|r.emitted|] == r.emitted
    ensures r'.started == (r.started || (e.RawModelEvent? && e.raw.OutputTextDelta?))
    ensures r'.shellCommandCount == r.shellCommandCount + ShellCall(e, o)
  {
    match e
    case RawModelEvent(OutputTextDelta(delta)) =>
      var push := if !r.started then [PushNewMessages([AgentText("")])] else [];
      r.(started := true, emitted := r.emitted + push + [UpdateLastMessageText(delta)])
    case ToolCalled(item) =>
      var it := RawItem(item);
      var args := ToolArgs(it, o.json);
      var msg := PushNewMessages([NewMessage(ToolMessage, ToolName(it, o.str), Some(args))]);
      if IsShellItem(item, o) then
        r.(shellCommandCount := r.shellCommandCount + 1, emitted := r.emitted + [msg, AddShellCommand(args, "", true)])
      else r.(emitted := r.emitted + [msg])
    case ToolCallFinished(item) => ShellFinished(r, item, o)
    case AgentUpdated(name) =>
      r.(emitted := r.emitted + [PushNewMessages([AgentText("\n👤 Agent switched to: " + name)])])
    case _ => r
  }

  /** A finished shell call updates the latest shell row with the exit code its output reports. */
  function ShellFinished(r: Run, item: Value, o: OnePass.Oracles): (r': Run)
    ensures |r'.emitted| >= |r.emitted| && r'.emitted[..|r.emitted|] == r.emitted
    ensures r'.started == r.started
  {
    if IsShellItem(item, o) then
      r.(emitted := r.emitted + [UpdateShellCommand(r.shellCommandCount - 1, false, ParseExitCode(Get(item, "result")))])
    else r
  }

  datatype Consumed = Drained(run: Run) | Stopped(run: Run, at: nat)

  /** How many events a run reads: up to and including the first past the ceiling, else all. */
  function ConsumedCount(n: nat, maxCost: Option<real>, costAfter: nat -> real): (k: nat)
    ensures k <= n
  {
    match OnePass.FirstExceeding(n, maxCost, costAfter)
    case Some(i) => i + 1
    case None => n
  }

  /**
   * The events in order; after each one the estimate is reported, and past the ceiling the
   * run stops. The run stops exactly at the first event whose estimate passes the ceiling,
   * and the counter has then grown by the shell calls among the events read.
   */
  function Consume(r: Run, events: seq<Event>, o: OnePass.Oracles, maxCost: Option<real>, costAfter: nat -> real): (c: Consumed)
    ensures c.Stopped? ==> c.at < |events|
    ensures c.Stopped? <==> OnePass.FirstExceeding(|events|, maxCost, costAfter).Some?
    ensures c.Stopped? ==> c.at == OnePass.FirstExceeding(|events|, maxCost, costAfter).value
    ensures |c.run.emitted| >= |r.emitted| && c.run.emitted[..|r.emitted|] == r.emitted
    ensures c.run.shellCommandCount
      == r.shellCommandCount + ShellCalls(events[..ConsumedCount(|events|, maxCost, costAfter)], o)
    decreases |events|
  {
    if |events| == 0 then Drained(r)
    else
      var i := |events| - 1;
      match Consume(r, events[..i], o, maxCost, costAfter)
      case Stopped(q, at) =>
        assert events[..i][..at + 1] == events[..at + 1];
        Stopped(q, at)
      case Drained(q) =>
        assert events[..i][..i] == events[..i];
        assert events[..i + 1] == events && events[..i + 1][..i] == events[..i];
        assert ShellCalls(events, o) == ShellCalls(events[..i], o) + ShellCall(events[i], o);
        var q' := RunStep(q, events[i], o);
        var q'' := q'.(emitted := q'.emitted + [UpdateCost(costAfter(i))]);
        if OnePass.Exceeds(maxCost, costAfter(i)) then
          Stopped(q''.(emitted := q''.emitted
            + [PushNewMessages([AgentText(OnePass.CeilingMessage(costAfter(i), maxCost.GetOr(0.0), o))])]), i)
        else Drained(q'')
  }

  /** How the run itself goes: `run` may throw before any event, or the stream after its events. */
  datatype Stream = Stream(startError: Option<Value>, events: seq<Event>, failure: Option<Value>, state: RunState)

  datatype TaskResult = Resolved | Rejected(reason: string)

  datatype TaskEnd = TaskEnd(manager: Manager, emitted: seq<Emit>, result: TaskResult)

  /** The report of a failed run: `Thought interrupted.` for an abort, else `Error:` and the error's headline. */
  function CatchReport(error: Value, o: OnePass.Oracles): (r: Result<NewMessage, string>)
    ensures error.Null? || error.Undefined? ==> r.Err?
    ensures r.Ok? && Get(error, "name") == Str("AbortError") ==> r.value == NewMessage(InterruptedMessage, "Thought interrupted.", None)
  {
    if error.Null? || error.Undefined? then Err("TypeError: Cannot read properties of " + (if error.Null? then "null" else "undefined"))
    else if Get(error, "name") == Str("AbortError") then Ok(NewMessage(InterruptedMessage, "Thought interrupted.", None))
    else Ok(AgentText("Error: " + Headline(error, o)))
  }

  /** `name:code status message`, the first line of the full error report. */
  function Headline(error: Value, o: OnePass.Oracles): string {
    var err := ShowError.ErrorObject(error);
    ShowError.ErrName(err, o.str) + ":" + ShowError.CodePart(err, o.str) + ShowError.StatusPart(err, o.str) + " "
      + ShowError.ErrMessage(err, o.str)
  }

  function Caught(m: Manager, emitted: seq<Emit>, error: Value, o: OnePass.Oracles): TaskEnd {
    var e := emitted + [SetInputMode(Waiting)];
    match CatchReport(error, o)
    case Ok(msg) => TaskEnd(m, e + [PushNewMessages([msg])], Resolved)
    case Err(reason) => TaskEnd(m, e, Rejected(reason))
  }

  /**
   * `runTask`. `costAfter(i)` is the estimate after event `i`; `sessionTotal` is the
   * session's cost once the turn is recorded.
   */
  function RunTask(m: Manager, s: Stream, o: OnePass.Oracles, maxCost: Option<real>, costAfter: nat -> real,
                   sessionTotal: real): (t: TaskEnd)
    ensures !(m.initialized && m.hasAgentAndSession) ==> t == TaskEnd(m, [], Rejected("Agent not initialized"))
    ensures m.initialized && m.hasAgentAndSession ==>
      t.manager.shellCommandCount == m.shellCommandCount
        + (if s.startError.Some? then 0 else ShellCalls(s.events[..ConsumedCount(|s.events|, maxCost, costAfter)], o))
  {
    if !(m.initialized && m.hasAgentAndSession) then TaskEnd(m, [], Rejected("Agent not initialized"))
    else
      var start := [SetInputMode(Thinking)];
      match s.startError
      case Some(error) => Caught(m, start, error, o)
      case None =>
        var m1 := m.(approvalState := None);
        match Consume(Run(false, m.shellCommandCount, start), s.events, o, maxCost, costAfter)
        case Stopped(r, _) => TaskEnd(m1.(shellCommandCount := r.shellCommandCount), r.emitted, Resolved)
        case Drained(r) =>
          var m2 := m1.(shellCommandCount := r.shellCommandCount);
          match s.failure
          case Some(error) => Caught(m2, r.emitted, error, o)
          case None =>
            if |s.state.interruptions| > 0 then
              TaskEnd(m2.(approvalState := Some(s.state)), r.emitted + [SetInputMode(Approving)], Resolved)
            else
              TaskEnd(m2.(turnsRecorded := m2.turnsRecorded + 1), r.emitted + [SetInputMode(Waiting), UpdateCost(sessionTotal)], Resolved)
  }

  // ---- approvals ----

  datatype Handled = Handled(manager: Manager, emitted: seq<Emit>, rerun: Option<RunState>)

  /** `handleApproval`: decide the first pending interruption, clear the saved state and run again with it. */
  function HandleApproval(m: Manager, approved: bool): (h: Handled)
    ensures m.approvalState.None? ==> h == Handled(m, [], None)
    ensures m.approvalState.Some? && |m.approvalState.value.interruptions| == 0 ==> h == Handled(m, [], None)
  {
    match m.approvalState
    case None => Handled(m, [], None)
    case Some(st) =>
      if |st.interruptions| == 0 then Handled(m, [], None)
      else
        var first := st.interruptions[0];
        var st' := if approved then st.(approved := st.approved + [first]) else st.(rejected := st.rejected + [first]);
        Handled(m.(approvalState := None), [SetInputMode(if approved then Approved else Denied)], Some(st'))
  }

  // ---- independent descriptions ----

  /** One for a call of the shell tool, zero for any other event. */
  function ShellCall(e: Event, o: OnePass.Oracles): nat {
    if e.ToolCalled? && IsShellItem(e.item, o) then 1 else 0
  }

  /** The number of shell calls among the events. */
  function ShellCalls(events: seq<Event>, o: OnePass.Oracles): nat
    decreases |events|
  {
    if |events| == 0 then 0
    else ShellCalls(events[..|events| - 1], o) + ShellCall(events[|events| - 1], o)
  }

  // ---- properties ----

  /** Initialising twice is initialising once. */
  lemma InitializeIdempotent(m: Manager, c: Config, c2: Config, stdin: Option<string>, stdin2: Option<string>)
    ensures var first := Initialize(m, c, stdin);
      Initialize(first.manager, c2, stdin2) == Initialized(first.manager, [], None)
  {
  }

  /** A key only ever changes its own provider's variable, and Ollama takes none. */
  lemma ApiKeyOnlyForItsProvider(env: Env, c: Config, name: string)
    requires name in env
    requires ApiKeyVar(c.provider) != Some(name)
    ensures name in WithApiKey(env, c) && WithApiKey(env, c)[name] == env[name]
    ensures c.provider == "Ollama" ==> WithApiKey(env, c) == env
  {
  }

  /**
   * Every shell call the run reads adds one to the counter and nothing else changes it:
   * a run that reads all its events ends with the count of every shell call among them.
   */
  lemma ShellCounterCountsCalls(r: Run, events: seq<Event>, o: OnePass.Oracles, maxCost: Option<real>,
                                costAfter: nat -> real)
    requires OnePass.FirstExceeding(|events|, maxCost, costAfter).None?
    ensures Consume(r, events, o, maxCost, costAfter).Drained?
    ensures Consume(r, events, o, maxCost, costAfter).run.shellCommandCount
      == r.shellCommandCount + ShellCalls(events, o)
  {
    assert events[..|events|] == events;
  }

  /** A finished shell call updates the row of the latest shell call with the parsed exit code. */
  lemma FinishedShellUpdatesLatestRow(r: Run, item: Value, o: OnePass.Oracles)
    requires IsShellItem(item, o)
    ensures RunStep(r, ToolCallFinished(item), o).emitted
      == r.emitted + [UpdateShellCommand(r.shellCommandCount - 1, false, ParseExitCode(Get(item, "result")))]
  {
    assert RunStep(r, ToolCallFinished(item), o).emitted == ShellFinished(r, item, o).emitted;
  }

  /** The ceiling ends the run without recording the turn or saving an approval. */
  lemma CeilingRecordsNothing(m: Manager, s: Stream, o: OnePass.Oracles, maxCost: Option<real>, costAfter: nat -> real,
                              sessionTotal: real)
    requires m.initialized && m.hasAgentAndSession && s.startError.None?
    requires Consume(Run(false, m.shellCommandCount, [SetInputMode(Thinking)]), s.events, o, maxCost, costAfter).Stopped?
    ensures var t := RunTask(m, s, o, maxCost, costAfter, sessionTotal);
      t.result == Resolved && t.manager.approvalState.None? && t.manager.turnsRecorded == m.turnsRecorded
  {
  }

  /**
   * After a run that got its stream, the saved approval is the run's state exactly when
   * the run ended cleanly with interruptions; a clean run without them records the turn.
   */
  lemma ApprovalStateBookkeeping(m: Manager, s: Stream, o: OnePass.Oracles, costAfter: nat -> real, sessionTotal: real)
    requires m.initialized && m.hasAgentAndSession && s.startError.None?
    ensures var t := RunTask(m, s, o, None, costAfter, sessionTotal);
      (t.manager.approvalState == Some(s.state) <==> s.failure.None? && |s.state.interruptions| > 0)
      && (t.manager.approvalState.None? <==> !(s.failure.None? && |s.state.interruptions| > 0))
    ensures var t := RunTask(m, s, o, None, costAfter, sessionTotal);
      t.manager.turnsRecorded == m.turnsRecorded + (if s.failure.None? && |s.state.interruptions| == 0 then 1 else 0)
  {
    NoCeilingDrains(Run(false, m.shellCommandCount, [SetInputMode(Thinking)]), s.events, o, costAfter);
  }

  lemma {:induction false} NoCeilingDrains(r: Run, events: seq<Event>, o: OnePass.Oracles, costAfter: nat -> real)
    ensures Consume(r, events, o, None, costAfter).Drained?
    decreases |events|
  {
    if |events| > 0 {
      NoCeilingDrains(r, events[..|events| - 1], o, costAfter);
    }
  }

  /** An aborted run puts the input back to waiting and shows only `Thought interrupted.`. */
  lemma AbortShowsInterrupted(m: Manager, emitted: seq<Emit>, error: Value, o: OnePass.Oracles)
    requires error.Obj? && Get(error, "name") == Str("AbortError")
    ensures Caught(m, emitted, error, o)
      == TaskEnd(m, emitted + [SetInputMode(Waiting), PushNewMessages([NewMessage(InterruptedMessage, "Thought interrupted.", None)])], Resolved)
  {
  }

  /** Approving or rejecting decides the first interruption only, clears the saved state and re-runs it. */
  lemma ApprovalDecidesFirstOnly(m: Manager, approved: bool)
    requires m.approvalState.Some? && |m.approvalState.value.interruptions| > 0
    ensures var h := HandleApproval(m, approved);
      var st := m.approvalState.value;
      h.manager.approvalState.None? && h.rerun.Some?
      && h.rerun.value.interruptions == st.interruptions
      && (approved ==> h.rerun.value.approved == st.approved + [st.interruptions[0]] && h.rerun.value.rejected == st.rejected)
      && (!approved ==> h.rerun.value.rejected == st.rejected + [st.interruptions[0]] && h.rerun.value.approved == st.approved)
  {
  }

  // ---- exit codes against the shell tool's text ----

  /** The marker cannot start inside text that lacks it and is followed by a line break. */
  lemma NoMarkerBefore(t: string, tail: string, j: nat)
    requires !Contains(t, ExitMarker) && |tail| > 0 && tail[0] == '\n'
    requires j <= |t|
    ensures ExitCodeAt(t + tail, j).None?
  {
    assert OneLine(ExitMarker);
    NotAcrossBreak(t, tail, ExitMarker, j);
  }

  /** The marker after a line break, then digits that nothing continues: those digits are matched there. */
  lemma MarkerMatched(t: string, digits: string, rest: string)
    requires AllDigits(digits) && |digits| > 0
    requires rest == "" || !IsDigit(rest[0])
    ensures ExitCodeAt(t + "\n" + ExitMarker + digits + rest, |t| + 1) == Some(digits)
  {
    var s := t + "\n" + ExitMarker + digits + rest;
    assert s[|t| + 1..] == ExitMarker + digits + rest;
    assert s[|t| + 1 + |ExitMarker|..] == digits + rest;
    DigitRunBeforeNonDigit(digits, rest);
  }

  /** Text without the marker, a line break and then the marker: the leftmost match is the one after the break. */
  lemma FirstMarkerAfterText(t: string, digits: string, rest: string)
    requires !Contains(t, ExitMarker)
    requires AllDigits(digits) && |digits| > 0
    requires rest == "" || !IsDigit(rest[0])
    ensures FindExitCode(t + "\n" + ExitMarker + digits + rest) == Some(digits)
  {
    var tail := "\n" + ExitMarker + digits + rest;
    var s := t + tail;
    assert t + "\n" + ExitMarker + digits + rest == s by {
      AppendAssoc5(t, "\n", ExitMarker, digits, rest);
    }
    NoMarkerUpTo(t, tail);
    MarkerMatched(t, digits, rest);
    FirstExitIs(s, |t| + 1);
  }

  lemma NoMarkerUpTo(t: string, tail: string)
    requires !Contains(t, ExitMarker) && |tail| > 0 && tail[0] == '\n'
    ensures forall j :: 0 <= j <= |t| ==> ExitCodeAt(t + tail, j).None?
  {
    forall j | 0 <= j <= |t| ensures ExitCodeAt(t + tail, j).None? {
      NoMarkerBefore(t, tail, j);
    }
  }

  lemma FirstExitIs(s: string, at: nat)
    requires at <= |s| && ExitCodeAt(s, at).Some?
    requires forall j :: 0 <= j < at ==> ExitCodeAt(s, j).None?
    ensures FirstExitAt(s, 0) == at
  {
    var j := FirstExitAt(s, 0);
    assert j <= at;
    assert j <= |s| && ExitCodeAt(s, j).Some?;
  }

  /** The first command's exit code is read back from the shell tool's text, whatever follows it. */
  lemma ExitCodeRoundTrip(out: ShellTool.CommandOutput, rest: string, code: nat)
    requires out.outcome == ShellTool.Exit(Some(code))
    requires !Contains(ShellTool.StreamsText(out), ExitMarker)
    requires rest == "" || !IsDigit(rest[0])
    ensures ParseExitCode(Str(ShellTool.FormatOne(out) + rest)) == code
  {
    var t := ShellTool.StreamsText(out);
    var digits := NatToString(code);
    assert ShellTool.FormatOne(out) == t + ("\n" + ExitMarker + digits);
    assert ShellTool.FormatOne(out) + rest == t + "\n" + ExitMarker + digits + rest by {
      AppendAssoc4(t, "\n", ExitMarker, digits);
    }
    FirstMarkerAfterText(t, digits, rest);
    ParseNatRoundTrip(code);
  }

  lemma {:induction false} DigitRunBeforeNonDigit(d: string, rest: string)
    requires AllDigits(d)
    requires rest == "" || !IsDigit(rest[0])
    ensures DigitPrefix(d + rest) == d
    decreases |d|
  {
    if |d| > 0 {
      assert (d + rest)[1..] == d[1..] + rest;
      DigitRunBeforeNonDigit(d[1..], rest);
    } else {
      assert d + rest == rest;
    }
  }

  /** A batch's text yields the first command's exit code when that command exited normally. */
  lemma BatchReportsFirstExitCode(outs: seq<ShellTool.CommandOutput>, code: nat)
    requires |outs| > 0 && outs[0].outcome == ShellTool.Exit(Some(code))
    requires !Contains(ShellTool.StreamsText(outs[0]), ExitMarker)
    ensures ParseExitCode(Str(ShellTool.FormatOutputs(outs))) == code
  {
    var rest := if |outs| == 1 then "" else "\n---\n" + ShellTool.FormatOutputs(outs[1..]);
    assert rest == "" || rest[0] == '\n';
    assert ShellTool.FormatOutputs(outs) == ShellTool.FormatOne(outs[0]) + rest;
    ExitCodeRoundTrip(outs[0], rest, code);
  }
}
