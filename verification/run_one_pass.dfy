/**
 * `runAgentForOnePass`: one streamed run of the agent, folded over its events. The fold
 * shows streamed text, lists tool calls, copies the service tier onto the usage record,
 * stops the process when the estimated cost passes the ceiling, collects one decision per
 * interruption, and turns any failure into an error report.
 */
module OnePass {
  import opened Wrappers
  import opened JsValues
  import opened StreamEvents
  import opened UiEvents
  import ShowError

  /** The usage record's service tier and the tiers of its per-request entries. */
  datatype Usage = Usage(serviceTier: Value, entryTiers: seq<Value>)

  /** What the fold carries: whether text has started, the last tool call, the usage, what was emitted. */
  datatype Pass = Pass(started: bool, lastToolCallInfo: Option<string>, usage: Usage, emitted: seq<Emit>)

  /**
   * The calls this code makes into code outside the model: `String`, `JSON.stringify`
   * for tool arguments and for error data (`None` when it throws or yields nothing),
   * `toFixed(4)`, `isTrue`, and the truncation length for displayed arguments.
   */
  datatype Oracles = Oracles(str: Value -> string, json: Value -> string, dataJson: Value -> Option<string>,
                             fixed4: real -> string, isTrue: string -> bool, truncation: nat)

  // ---- one event ----

  /** `data.response?.providerData?.service_tier || data.providerData?.service_tier`. */
  function ServiceTier(data: Value): Value {
    Or(Get(Get(Get(data, "response"), "providerData"), "service_tier"), Get(Get(data, "providerData"), "service_tier"))
  }

  /** The tier goes onto the usage record and onto its last entry only. */
  function WithTier(u: Usage, tier: Value): (r: Usage)
    ensures r.serviceTier == tier && |r.entryTiers| == |u.entryTiers|
    ensures |u.entryTiers| > 0 ==>
      r.entryTiers[..|u.entryTiers| - 1] == u.entryTiers[..|u.entryTiers| - 1] && r.entryTiers[|u.entryTiers| - 1] == tier
    ensures |u.entryTiers| == 0 ==> r.entryTiers == []
  {
    var n := |u.entryTiers|;
    Usage(tier, if n > 0 then u.entryTiers[..n - 1] + [tier] else u.entryTiers)
  }

  /** `(args)` with the arguments cut at `n` characters and `...` marking a cut; `()` for none. */
  function DisplayedArgs(args: string, n: nat): (r: string)
    ensures args == "" <==> r == "()"
    ensures |r| >= 2 && r[0] == '(' && r[|r| - 1] == ')'
    ensures |args| <= n ==> r[1..|r| - 1] == args
    ensures |args| > n ==> r[1..|r| - 1] == args[..n] + "..."
    ensures |r| <= n + 5
  {
    if args == "" then "()"
    else
      var shown := if |args| > n then args[..n] + "..." else args;
      var r := "(" + shown + ")";
      assert r[1..|r| - 1] == shown;
      r
  }

  /** The tool message's name and displayed arguments, `name + displayedArgs` as the saved context. */
  function ToolCallInfo(item: Value, o: Oracles): string {
    var it := RawItem(item);
    ToolName(it, o.str) + DisplayedArgs(ToolArgs(it, o.json), o.truncation)
  }

  function ToolCallMessage(item: Value, o: Oracles): NewMessage {
    var it := RawItem(item);
    NewMessage(UiEvents.ToolMessage, ToolName(it, o.str), Some(DisplayedArgs(ToolArgs(it, o.json), o.truncation)))
  }

  function Step(p: Pass, e: Event, o: Oracles): (r: Pass)
    ensures |r.usage.entryTiers| == |p.usage.entryTiers|
    ensures |r.emitted| >= |p.emitted| && r.emitted[..|p.emitted|] == p.emitted
  {
    match e
    case RawModelEvent(OutputTextDelta(delta)) =>
      if !p.started then p.(started := true, emitted := p.emitted + [PushNewMessages([AgentText(delta)])])
      else p.(emitted := p.emitted + [UpdateLastMessageText(delta)])
    case RawModelEvent(ResponseDone(data)) =>
      var tier := ServiceTier(data);
      p.(usage := if Truthy(tier) then WithTier(p.usage, tier) else p.usage,
         emitted := p.emitted + [SetInputMode(Waiting)])
    case ToolCalled(item) =>
      p.(lastToolCallInfo := Some(ToolCallInfo(item, o)), emitted := p.emitted + [PushNewMessages([ToolCallMessage(item, o)])])
    case _ => p
  }

  /** All events, with no ceiling. */
  function Drain(p: Pass, events: seq<Event>, o: Oracles): (r: Pass)
    ensures |r.usage.entryTiers| == |p.usage.entryTiers|
    decreases |events|
  {
    if |events| == 0 then p else Step(Drain(p, events[..|events| - 1], o), events[|events| - 1], o)
  }

  // ---- the cost ceiling ----

  function CeilingMessage(estimate: real, maxCost: real, o: Oracles): string {
    "Cost limit exceeded: $" + o.fixed4(estimate) + " > $" + o.fixed4(maxCost)
  }

  function CeilingEmits(estimate: real, maxCost: real, o: Oracles): seq<Emit> {
    [SetInputMode(Denied), SetInputModeLater(Waiting), PushNewMessages([AgentText(CeilingMessage(estimate, maxCost, o))])]
  }

  predicate Exceeds(maxCost: Option<real>, estimate: real) {
    maxCost.Some? && estimate > maxCost.value
  }

  /** The pass as the ceiling leaves it: denied, waiting again a second later, and the cost reported. */
  function AtCeiling(q: Pass, estimate: real, maxCost: Option<real>, o: Oracles): Pass {
    q.(emitted := q.emitted + CeilingEmits(estimate, maxCost.GetOr(0.0), o))
  }

  /** The fold stopped by the ceiling after event `at`, or ran through every event. */
  datatype Consumed = Drained(pass: Pass) | Stopped(pass: Pass, at: nat)

  /**
   * The events in order; after event `i` the estimate is `costAfter(i)`, and when it
   * passes `maxCost` the run is aborted and nothing further is read.
   */
  function Consume(p: Pass, events: seq<Event>, o: Oracles, maxCost: Option<real>, costAfter: nat -> real): (r: Consumed)
    ensures r.Stopped? ==> r.at < |events|
    decreases |events|
  {
    if |events| == 0 then Drained(p)
    else
      var i := |events| - 1;
      match Consume(p, events[..i], o, maxCost, costAfter)
      case Stopped(q, at) => Stopped(q, at)
      case Drained(q) =>
        var q' := Step(q, events[i], o);
        if Exceeds(maxCost, costAfter(i)) then
          Stopped(AtCeiling(q', costAfter(i), maxCost, o), i)
        else Drained(q')
  }

  // ---- process exit ----

  /** `process.exit(code)`: the status is the argument when given, else `process.exitCode`, else 0. */
  function ExitStatus(exitCode: Option<int>, argument: Option<int>): int {
    match argument
    case Some(c) => c
    case None => exitCode.GetOr(0)
  }

  /** `handleExit` as written: `process.exit(0)`, whatever exit code was set before. */
  function HandleExit(exitCode: Option<int>): (status: int)
    ensures status == 0
  {
    ExitStatus(exitCode, Some(0))
  }

  /** `handleExit` keeping an exit code set earlier: `process.exit()`. */
  function HandleExitKeepingCode(exitCode: Option<int>): (status: int)
    ensures exitCode.Some? ==> status == exitCode.value
    ensures exitCode.None? ==> status == 0
  {
    ExitStatus(exitCode, None)
  }

  // ---- interruptions ----

  /** An interruption is approved when the next pushed batch holds a user message whose text `isTrue`. */
  predicate Approves(batch: seq<NewMessage>, isTrue: string -> bool) {
    exists m :: m in batch && m.kind == UserMessage && isTrue(m.text)
  }

  /** One decision per batch, in order. */
  function Decide(batches: seq<seq<NewMessage>>, isTrue: string -> bool): (r: seq<bool>)
    ensures |r| == |batches|
    ensures forall i :: 0 <= i < |r| ==> r[i] == Approves(batches[i], isTrue)
  {
    seq(|batches|, i requires 0 <= i < |batches| => Approves(batches[i], isTrue))
  }

  // ---- the whole pass ----

  /** What the stream ends with: the error it throws, if any, and the interruptions it leaves. */
  datatype StreamEnd = StreamEnd(failure: Option<Value>, interruptions: nat)

  datatype Returned = ReturnedNull | ReturnedState(decisions: seq<bool>)

  datatype Outcome =
    | Exited(pass: Pass, status: int)
    | Returned(pass: Pass, value: Returned)
      /** Still waiting for the user's reply to interruption number `|decisions|`. */
    | AwaitingReply(pass: Pass, decisions: seq<bool>)
      /** The pass rejects: composing the error report threw before it sent anything. */
    | Rejected(pass: Pass)

  /** `showErrorToUser`'s notifications: input denied, waiting again a second later, and the report. */
  function ErrorEmits(error: Value, info: Option<string>, o: Oracles): (r: seq<Emit>)
    ensures |r| == 3 && r[0] == SetInputMode(Denied) && r[1] == SetInputModeLater(Waiting)
    ensures r[2] == PushNewMessages([AgentText(ShowError.Composed(error, info, o.str, o.dataJson))])
  {
    [SetInputMode(Denied), SetInputModeLater(Waiting),
     PushNewMessages([AgentText(ShowError.Composed(error, info, o.str, o.dataJson))])]
  }

  /** After the last event: the error report, or the cost, then the interruptions' decisions. */
  function Finish(p: Pass, end: StreamEnd, batches: seq<seq<NewMessage>>, finalCost: real, o: Oracles): (r: Outcome)
    ensures !r.Exited?
    ensures r.Rejected? <==> end.failure.Some? && ShowError.ReportThrows(end.failure.value)
    ensures r.Rejected? ==> r.pass == p
    ensures !r.Rejected? ==> |r.pass.emitted| > |p.emitted| && r.pass.emitted[..|p.emitted|] == p.emitted
    ensures end.failure.Some? && !ShowError.ReportThrows(end.failure.value) ==> r.Returned? && r.value == ReturnedNull
    ensures r.AwaitingReply? <==> end.failure.None? && 0 < end.interruptions && |batches| < end.interruptions
    ensures r.AwaitingReply? ==> |r.decisions| == |batches|
    ensures r.Returned? && r.value.ReturnedState? ==> end.failure.None? && |r.value.decisions| == end.interruptions
  {
    match end.failure
    case Some(error) =>
      if ShowError.ReportThrows(error) then Rejected(p)
      else Returned(p.(emitted := p.emitted + ErrorEmits(error, p.lastToolCallInfo, o)), ReturnedNull)
    case None =>
      var p1 := p.(emitted := p.emitted + [UpdateCost(finalCost)]);
      if end.interruptions == 0 then Returned(p1, ReturnedNull)
      else
        var p2 := p1.(emitted := p1.emitted + [SetInputMode(Approving)]);
        if |batches| < end.interruptions then AwaitingReply(p2, Decide(batches, o.isTrue))
        else
          Returned(p2.(emitted := p2.emitted + [SetInputMode(Approved), SetInputModeLater(Thinking)]),
                   ReturnedState(Decide(batches[..end.interruptions], o.isTrue)))
  }

  /** A pass starts with no text, no tool call remembered, and the thinking notification. */
  function Start(usage: Usage): (p: Pass)
    ensures !p.started && p.lastToolCallInfo.None? && p.usage == usage
    ensures p.emitted == [SetInputMode(Thinking)]
  {
    Pass(false, None, usage, [SetInputMode(Thinking)])
  }

  /**
   * The pass, with the exit status at the ceiling left to `exitStatus`. `batches` are
   * the messages pushed while interruptions are pending, one batch per reply.
   */
  function RunWith(events: seq<Event>, end: StreamEnd, usage: Usage, batches: seq<seq<NewMessage>>, finalCost: real,
                   o: Oracles, maxCost: Option<real>, costAfter: nat -> real, exitStatus: int): (r: Outcome)
    ensures r.Exited? <==> FirstExceeding(|events|, maxCost, costAfter).Some?
    ensures r.Exited? ==> r.status == exitStatus
    ensures r.Rejected? ==> end.failure.Some? && ShowError.ReportThrows(end.failure.value)
  {
    ConsumeStopsAtFirstExceeding(Start(usage), events, o, maxCost, costAfter);
    match Consume(Start(usage), events, o, maxCost, costAfter)
    case Stopped(p, _) => Exited(p, exitStatus)
    case Drained(p) => Finish(p, end, batches, finalCost, o)
  }

  /** As written: the ceiling sets `process.exitCode = 1`, then `handleExit` exits with 0. */
  function RunOnePass(events: seq<Event>, end: StreamEnd, usage: Usage, batches: seq<seq<NewMessage>>, finalCost: real,
                      o: Oracles, maxCost: Option<real>, costAfter: nat -> real): (r: Outcome)
    ensures r.Exited? ==> r.status == 0
  {
    RunWith(events, end, usage, batches, finalCost, o, maxCost, costAfter, HandleExit(Some(1)))
  }

  /** As intended: the exit code set at the ceiling is the process's status. */
  function RunOnePassFixed(events: seq<Event>, end: StreamEnd, usage: Usage, batches: seq<seq<NewMessage>>, finalCost: real,
                           o: Oracles, maxCost: Option<real>, costAfter: nat -> real): (r: Outcome)
    ensures r.Exited? ==> r.status == 1
  {
    RunWith(events, end, usage, batches, finalCost, o, maxCost, costAfter, HandleExitKeepingCode(Some(1)))
  }

  // ---- independent descriptions ----

  function EventDelta(e: Event): seq<string> {
    if e.RawModelEvent? && e.raw.OutputTextDelta? then [e.raw.delta] else []
  }

  /** The deltas of the text stream, in order. */
  function Deltas(events: seq<Event>): (r: seq<string>)
    decreases |events|
  {
    if |events| == 0 then []
    else
      Deltas(events[..|events| - 1]) + EventDelta(events[|events| - 1])
  }

  /** The display string of the most recent tool call, if any. */
  function LastToolCall(events: seq<Event>, o: Oracles): Option<string>
    decreases |events|
  {
    if |events| == 0 then None
    else if events[|events| - 1].ToolCalled? then Some(ToolCallInfo(events[|events| - 1].item, o))
    else LastToolCall(events[..|events| - 1], o)
  }

  /** The first event after which the estimate passes the ceiling, if any. */
  function FirstExceeding(n: nat, maxCost: Option<real>, costAfter: nat -> real): (r: Option<nat>)
    ensures r.Some? ==> r.value < n && Exceeds(maxCost, costAfter(r.value))
    ensures r.Some? ==> forall j :: 0 <= j < r.value ==> !Exceeds(maxCost, costAfter(j))
    ensures r.None? ==> forall j :: 0 <= j < n ==> !Exceeds(maxCost, costAfter(j))
  {
    if n == 0 then None
    else
      match FirstExceeding(n - 1, maxCost, costAfter)
      case Some(i) => Some(i)
      case None => if Exceeds(maxCost, costAfter(n - 1)) then Some(n - 1) else None
  }

  /** The text notifications for a delta stream: a push of the first delta, then one append per later delta. */
  function DeltaEmits(ds: seq<string>): (r: seq<Emit>)
    ensures |r| == |ds|
  {
    if |ds| == 0 then [] else [PushNewMessages([AgentText(ds[0])])] + seq(|ds| - 1, i requires 0 <= i < |ds| - 1 => UpdateLastMessageText(ds[i + 1]))
  }

  // ---- properties ----

  /** A delta starts the text with a push, or appends to it once started. */
  lemma StepTextDelta(q: Pass, d: string, o: Oracles, base: seq<Emit>, ds: seq<string>)
    requires q.started <==> |ds| > 0
    requires TextEmits(q.emitted) == base + DeltaEmits(ds)
    ensures Step(q, RawModelEvent(OutputTextDelta(d)), o).started
    ensures TextEmits(Step(q, RawModelEvent(OutputTextDelta(d)), o).emitted) == base + DeltaEmits(ds + [d])
  {
    var emit := if !q.started then PushNewMessages([AgentText(d)]) else UpdateLastMessageText(d);
    var q' := Step(q, RawModelEvent(OutputTextDelta(d)), o);
    assert q'.started && q'.emitted == q.emitted + [emit];
    TextEmitsAppend(q.emitted, [emit]);
    assert TextEmits([emit]) == [emit] by { assert [emit][..0] == []; }
    DeltaEmitsSnoc(ds, d);
    assert emit == if |ds| == 0 then PushNewMessages([AgentText(d)]) else UpdateLastMessageText(d);
    assert base + DeltaEmits(ds) + [emit] == base + (DeltaEmits(ds) + [emit]);
  }

  /** Any other event leaves the text, and whether it has started, as they were. */
  lemma StepNoText(q: Pass, e: Event, o: Oracles)
    requires EventDelta(e) == []
    ensures Step(q, e, o).started == q.started
    ensures TextEmits(Step(q, e, o).emitted) == TextEmits(q.emitted)
  {
    match e
    case RawModelEvent(ResponseDone(data)) => ResponseDoneNoText(q, data, o);
    case ToolCalled(item) => ToolCalledNoText(q, item, o);
    case _ =>
  }

  lemma ResponseDoneNoText(q: Pass, data: Value, o: Oracles)
    ensures Step(q, RawModelEvent(ResponseDone(data)), o).started == q.started
    ensures TextEmits(Step(q, RawModelEvent(ResponseDone(data)), o).emitted) == TextEmits(q.emitted)
  {
    assert Step(q, RawModelEvent(ResponseDone(data)), o).emitted == q.emitted + [SetInputMode(Waiting)];
    OneNonTextEmit(q.emitted, SetInputMode(Waiting));
  }

  lemma ToolCalledNoText(q: Pass, item: Value, o: Oracles)
    ensures Step(q, ToolCalled(item), o).started == q.started
    ensures TextEmits(Step(q, ToolCalled(item), o).emitted) == TextEmits(q.emitted)
  {
    var m := ToolCallMessage(item, o);
    assert Step(q, ToolCalled(item), o).emitted == q.emitted + [PushNewMessages([m])];
    assert !IsTextEmit(PushNewMessages([m])) by {
      assert [m][0].kind == UiEvents.ToolMessage;
    }
    OneNonTextEmit(q.emitted, PushNewMessages([m]));
  }

  /** One event keeps the text notifications in step with the deltas seen so far. */
  lemma StepText(q: Pass, e: Event, o: Oracles, base: seq<Emit>, ds: seq<string>)
    requires q.started <==> |ds| > 0
    requires TextEmits(q.emitted) == base + DeltaEmits(ds)
    ensures Step(q, e, o).started <==> |ds + EventDelta(e)| > 0
    ensures TextEmits(Step(q, e, o).emitted) == base + DeltaEmits(ds + EventDelta(e))
  {
    if e.RawModelEvent? && e.raw.OutputTextDelta? {
      StepTextDelta(q, e.raw.delta, o, base, ds);
    } else {
      assert EventDelta(e) == [];
      StepNoText(q, e, o);
      assert ds + EventDelta(e) == ds;
    }
  }

  /** Text has started exactly when some delta has been seen, and the text notifications are exactly the deltas'. */
  lemma {:induction false} DrainText(p: Pass, events: seq<Event>, o: Oracles)
    requires !p.started
    ensures Drain(p, events, o).started <==> |Deltas(events)| > 0
    ensures TextEmits(Drain(p, events, o).emitted) == TextEmits(p.emitted) + DeltaEmits(Deltas(events))
    decreases |events|
  {
    if |events| > 0 {
      var n := |events| - 1;
      DrainText(p, events[..n], o);
      StepText(Drain(p, events[..n], o), events[n], o, TextEmits(p.emitted), Deltas(events[..n]));
    } else {
      assert TextEmits(p.emitted) + [] == TextEmits(p.emitted);
    }
  }

  lemma OneNonTextEmit(es: seq<Emit>, e: Emit)
    requires !IsTextEmit(e)
    ensures TextEmits(es + [e]) == TextEmits(es)
  {
    assert (es + [e])[..|es|] == es;
  }

  lemma DeltaEmitsSnoc(ds: seq<string>, d: string)
    ensures DeltaEmits(ds + [d]) == DeltaEmits(ds)
      + [if |ds| == 0 then PushNewMessages([AgentText(d)]) else UpdateLastMessageText(d)]
  {
    var l := DeltaEmits(ds + [d]);
    var r := DeltaEmits(ds) + [if |ds| == 0 then PushNewMessages([AgentText(d)]) else UpdateLastMessageText(d)];
    assert |l| == |r|;
    forall i | 0 <= i < |l| ensures l[i] == r[i] {
      if i > 0 && i < |ds| {
        assert (ds + [d])[i] == ds[i];
      }
    }
  }

  /** The saved context is the display string of the most recent tool call. */
  lemma {:induction false} DrainKeepsLastToolCall(p: Pass, events: seq<Event>, o: Oracles)
    ensures Drain(p, events, o).lastToolCallInfo == OrElse(LastToolCall(events, o), p.lastToolCallInfo)
    decreases |events|
  {
    if |events| > 0 {
      DrainKeepsLastToolCall(p, events[..|events| - 1], o);
    }
  }

  /** The ceiling stops the fold exactly at the first event whose estimate passes it; otherwise every event is read. */
  lemma {:induction false} ConsumeStopsAtFirstExceeding(p: Pass, events: seq<Event>, o: Oracles, maxCost: Option<real>,
                                                      costAfter: nat -> real)
    ensures FirstExceeding(|events|, maxCost, costAfter).None? ==>
      Consume(p, events, o, maxCost, costAfter) == Drained(Drain(p, events, o))
    ensures FirstExceeding(|events|, maxCost, costAfter).Some? ==>
      var i := FirstExceeding(|events|, maxCost, costAfter).value;
      Consume(p, events, o, maxCost, costAfter) == Stopped(AtCeiling(Drain(p, events[..i + 1], o), costAfter(i), maxCost, o), i)
    decreases |events|
  {
    if |events| > 0 {
      var n := |events| - 1;
      var prefix := events[..n];
      ConsumeStopsAtFirstExceeding(p, prefix, o, maxCost, costAfter);
      var f := FirstExceeding(n, maxCost, costAfter);
      if f.Some? {
        var i := f.value;
        assert Consume(p, events, o, maxCost, costAfter) == Consume(p, prefix, o, maxCost, costAfter);
        assert prefix[..i + 1] == events[..i + 1];
      } else {
        var q' := Step(Drain(p, prefix, o), events[n], o);
        assert Consume(p, prefix, o, maxCost, costAfter) == Drained(Drain(p, prefix, o));
        assert Drain(p, events, o) == q';
        assert events[..n + 1] == events;
      }
    }
  }

  /** Without a ceiling the process never exits. */
  lemma NoCeilingNoExit(events: seq<Event>, end: StreamEnd, usage: Usage, batches: seq<seq<NewMessage>>, finalCost: real,
                        o: Oracles, costAfter: nat -> real)
    ensures !RunOnePass(events, end, usage, batches, finalCost, o, None, costAfter).Exited?
  {
    var p0 := Start(usage);
    ConsumeStopsAtFirstExceeding(p0, events, o, None, costAfter);
  }

  /** As written: passing the ceiling ends the process, and it ends with status 0. */
  lemma CeilingExitsWithZero(events: seq<Event>, end: StreamEnd, usage: Usage, batches: seq<seq<NewMessage>>,
                             finalCost: real, o: Oracles, maxCost: real, costAfter: nat -> real, i: nat)
    requires i < |events| && costAfter(i) > maxCost
    ensures RunOnePass(events, end, usage, batches, finalCost, o, Some(maxCost), costAfter).Exited?
    ensures RunOnePass(events, end, usage, batches, finalCost, o, Some(maxCost), costAfter).status == 0
  {
    var p0 := Start(usage);
    ConsumeStopsAtFirstExceeding(p0, events, o, Some(maxCost), costAfter);
  }

  /** Corrected: passing the ceiling ends the process with status 1. */
  lemma CeilingExitsWithFailure(events: seq<Event>, end: StreamEnd, usage: Usage, batches: seq<seq<NewMessage>>,
                                finalCost: real, o: Oracles, maxCost: real, costAfter: nat -> real, i: nat)
    requires i < |events| && costAfter(i) > maxCost
    ensures RunOnePassFixed(events, end, usage, batches, finalCost, o, Some(maxCost), costAfter).Exited?
    ensures RunOnePassFixed(events, end, usage, batches, finalCost, o, Some(maxCost), costAfter).status == 1
  {
    var p0 := Start(usage);
    ConsumeStopsAtFirstExceeding(p0, events, o, Some(maxCost), costAfter);
  }

  /**
   * The corrected pass differs from the one as written only in the exit status at the
   * ceiling: the same runs end the process, with the same notifications, and every
   * other outcome is identical.
   */
  lemma FixedDiffersOnlyInStatus(events: seq<Event>, end: StreamEnd, usage: Usage, batches: seq<seq<NewMessage>>,
                                 finalCost: real, o: Oracles, maxCost: Option<real>, costAfter: nat -> real)
    ensures var w := RunOnePass(events, end, usage, batches, finalCost, o, maxCost, costAfter);
      var f := RunOnePassFixed(events, end, usage, batches, finalCost, o, maxCost, costAfter);
      (w.Exited? <==> f.Exited?)
      && (w.Exited? ==> w.pass == f.pass && w.status == 0 && f.status == 1)
      && (!w.Exited? ==> w == f)
  {
  }

  /**
   * The pass hands back the run state only when the stream ended cleanly with
   * interruptions, and then with one decision per interruption, in order.
   */
  lemma ReturnsStateOnlyForInterruptions(events: seq<Event>, end: StreamEnd, usage: Usage, batches: seq<seq<NewMessage>>,
                                         finalCost: real, o: Oracles, maxCost: Option<real>, costAfter: nat -> real)
    ensures var r := RunOnePassFixed(events, end, usage, batches, finalCost, o, maxCost, costAfter);
      r.Returned? && r.value.ReturnedState? ==>
        end.failure.None? && end.interruptions > 0 && |r.value.decisions| == end.interruptions
        && forall k :: 0 <= k < end.interruptions ==> r.value.decisions[k] == Approves(batches[k], o.isTrue)
    ensures var r := RunOnePassFixed(events, end, usage, batches, finalCost, o, maxCost, costAfter);
      r.Returned? && (end.failure.Some? || end.interruptions == 0) ==> r.value == ReturnedNull
    ensures var r := RunOnePassFixed(events, end, usage, batches, finalCost, o, maxCost, costAfter);
      r.Rejected? ==> end.failure.Some? && ShowError.ReportThrows(end.failure.value)
  {
  }

  /**
   * A failure ends with the error report, naming the most recent tool call; when the
   * report itself throws, the pass rejects with nothing shown after the events.
   */
  lemma FailureReportsLastToolCall(events: seq<Event>, error: Value, interruptions: nat, usage: Usage,
                                   batches: seq<seq<NewMessage>>, finalCost: real, o: Oracles, costAfter: nat -> real)
    ensures var r := RunOnePassFixed(events, StreamEnd(Some(error), interruptions), usage, batches, finalCost, o, None, costAfter);
      !ShowError.ReportThrows(error) ==>
        r.Returned? && r.value == ReturnedNull
        && |r.pass.emitted| >= 3
        && r.pass.emitted[|r.pass.emitted| - 3..] == ErrorEmits(error, LastToolCall(events, o), o)
    ensures var r := RunOnePassFixed(events, StreamEnd(Some(error), interruptions), usage, batches, finalCost, o, None, costAfter);
      ShowError.ReportThrows(error) ==> r.Rejected? && r.pass == Drain(Start(usage), events, o)
  {
    var p0 := Start(usage);
    ConsumeStopsAtFirstExceeding(p0, events, o, None, costAfter);
    DrainKeepsLastToolCall(p0, events, o);
  }

  /** Of the error notifications only the report is agent text, so it is shown as one new message. */
  lemma ErrorReportIsOnlyText(error: Value, info: Option<string>, o: Oracles)
    ensures TextEmits(ErrorEmits(error, info, o)) == [ErrorEmits(error, info, o)[2]]
  {
    ReportEmitsText(ShowError.Composed(error, info, o.str, o.dataJson));
  }

  lemma ReportEmitsText(t: string)
    ensures var es := [SetInputMode(Denied), SetInputModeLater(Waiting), PushNewMessages([AgentText(t)])];
      TextEmits(es) == [es[2]]
  {
    var es := [SetInputMode(Denied), SetInputModeLater(Waiting), PushNewMessages([AgentText(t)])];
    OneNonTextEmit([], es[0]);
    assert [] + [es[0]] == es[..1];
    OneNonTextEmit(es[..1], es[1]);
    assert es[..1] + [es[1]] == es[..2];
    assert TextEmits([]) == [];
    assert es[..2] + [es[2]] == es;
    assert IsTextEmit(es[2]);
  }

  /** Without a failure, finishing the pass adds no text notification. */
  lemma FinishAddsNoText(p: Pass, end: StreamEnd, batches: seq<seq<NewMessage>>, finalCost: real, o: Oracles)
    requires end.failure.None?
    ensures TextEmits(Finish(p, end, batches, finalCost, o).pass.emitted) == TextEmits(p.emitted)
  {
    var e1 := p.emitted + [UpdateCost(finalCost)];
    OneNonTextEmit(p.emitted, UpdateCost(finalCost));
    if end.interruptions == 0 {
      assert Finish(p, end, batches, finalCost, o).pass.emitted == e1;
    } else if |batches| < end.interruptions {
      AwaitingAddsNoText(p, end, batches, finalCost, o);
    } else {
      DecidedAddsNoText(p, end, batches, finalCost, o);
    }
  }

  lemma AwaitingAddsNoText(p: Pass, end: StreamEnd, batches: seq<seq<NewMessage>>, finalCost: real, o: Oracles)
    requires end.failure.None? && 0 < end.interruptions && |batches| < end.interruptions
    ensures TextEmits(Finish(p, end, batches, finalCost, o).pass.emitted) == TextEmits(p.emitted)
  {
    var e1 := p.emitted + [UpdateCost(finalCost)];
    assert Finish(p, end, batches, finalCost, o).pass.emitted == e1 + [SetInputMode(Approving)];
    OneNonTextEmit(p.emitted, UpdateCost(finalCost));
    OneNonTextEmit(e1, SetInputMode(Approving));
  }

  lemma DecidedAddsNoText(p: Pass, end: StreamEnd, batches: seq<seq<NewMessage>>, finalCost: real, o: Oracles)
    requires end.failure.None? && 0 < end.interruptions <= |batches|
    ensures TextEmits(Finish(p, end, batches, finalCost, o).pass.emitted) == TextEmits(p.emitted)
  {
    var e1 := p.emitted + [UpdateCost(finalCost)];
    var e2 := e1 + [SetInputMode(Approving)];
    var e3 := e2 + [SetInputMode(Approved)];
    assert Finish(p, end, batches, finalCost, o).pass.emitted == e3 + [SetInputModeLater(Thinking)] by {
      assert e2 + [SetInputMode(Approved), SetInputModeLater(Thinking)] == e3 + [SetInputModeLater(Thinking)];
    }
    OneNonTextEmit(p.emitted, UpdateCost(finalCost));
    OneNonTextEmit(e1, SetInputMode(Approving));
    OneNonTextEmit(e2, SetInputMode(Approved));
    OneNonTextEmit(e3, SetInputModeLater(Thinking));
  }

  /** A stream without failure shows its first delta as a new message and appends every later one. */
  lemma StreamedTextShown(events: seq<Event>, end: StreamEnd, usage: Usage, batches: seq<seq<NewMessage>>,
                          finalCost: real, o: Oracles, costAfter: nat -> real)
    requires end.failure.None?
    ensures var r := RunOnePassFixed(events, end, usage, batches, finalCost, o, None, costAfter);
      !r.Exited? && TextEmits(r.pass.emitted) == DeltaEmits(Deltas(events))
  {
    var p0 := Start(usage);
    ConsumeStopsAtFirstExceeding(p0, events, o, None, costAfter);
    DrainText(p0, events, o);
    assert TextEmits(p0.emitted) == [] by {
      OneNonTextEmit([], SetInputMode(Thinking));
      assert [] + [SetInputMode(Thinking)] == p0.emitted;
    }
    FinishAddsNoText(Drain(p0, events, o), end, batches, finalCost, o);
  }
}
