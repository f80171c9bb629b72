/**
 * The events of a streamed agent run as the turn executors see them, and the reading
 * of a tool-call item both executors share: the tool's display name and the text of
 * its arguments.
 */
module StreamEvents {
  import opened Wrappers
  import opened JsValues

  /** `data` of a raw model stream event. */
  datatype RawData =
    | ResponseStarted
    | OutputTextDelta(delta: string)
    | ResponseDone(data: Value)
    | OtherRawData

  /**
   * One event of the run stream. `item` is the run item as the stream delivers it (its
   * `rawItem`, when present, is what the executors read).
   */
  datatype Event =
    | RawModelEvent(raw: RawData)
    | ToolCalled(item: Value)
    | ToolCallFinished(item: Value)
    | AgentUpdated(agentName: string)
    | OtherRunItemEvent

  /** `${v}` for a value: a string as itself, anything else through `String(v)`. */
  function Text(v: Value, str: Value -> string): string {
    if v.Str? then v.s else str(v)
  }

  /** `event.item.rawItem ?? event.item`. */
  function RawItem(item: Value): Value {
    Coalesce(Get(item, "rawItem"), item)
  }

  /** `item.name || item.type || 'tool'`. */
  function ToolName(it: Value, str: Value -> string): (r: string)
    ensures Truthy(Get(it, "name")) ==> r == Text(Get(it, "name"), str)
    ensures !Truthy(Get(it, "name")) && Truthy(Get(it, "type")) ==> r == Text(Get(it, "type"), str)
    ensures !Truthy(Get(it, "name")) && !Truthy(Get(it, "type")) ==> r == "tool"
  {
    Text(Or(Or(Get(it, "name"), Get(it, "type")), Str("tool")), str)
  }

  /** The arguments as first read: a string verbatim, any other truthy value as JSON, else empty. */
  function DirectArgs(it: Value, json: Value -> string): string {
    var a := Get(it, "arguments");
    if a.Str? then a.s else if Truthy(a) then json(a) else ""
  }

  /**
   * The tool-call argument text: the direct arguments, else the JSON of a shell call's
   * commands, else the JSON of a patch call's operation, else empty.
   */
  function ToolArgs(it: Value, json: Value -> string): (r: string)
    ensures DirectArgs(it, json) != "" ==> r == DirectArgs(it, json)
  {
    var args := DirectArgs(it, json);
    var commands := Get(Get(it, "action"), "commands");
    var args' := if args == "" && Get(it, "type") == Str("shell_call") && Truthy(commands) then json(commands) else args;
    var operation := Get(it, "operation");
    if args' == "" && Get(it, "type") == Str("apply_patch_call") && Truthy(operation) then json(operation) else args'
  }

  predicate IsShellName(name: string) {
    name == "shell" || name == "shell_call"
  }

  // ---- properties ----

  /** Non-empty string arguments are shown verbatim, whatever the item's type. */
  lemma StringArgumentsVerbatim(it: Value, json: Value -> string)
    requires Get(it, "arguments").Str? && Get(it, "arguments").s != ""
    ensures ToolArgs(it, json) == Get(it, "arguments").s
  {
  }

  /** A shell call without usable arguments shows its commands; any other type never does. */
  lemma ShellCallFallsBackToCommands(it: Value, json: Value -> string)
    requires DirectArgs(it, json) == ""
    requires Truthy(Get(Get(it, "action"), "commands"))
    ensures Get(it, "type") == Str("shell_call") && json(Get(Get(it, "action"), "commands")) != "" ==>
      ToolArgs(it, json) == json(Get(Get(it, "action"), "commands"))
    ensures Get(it, "type") != Str("shell_call") && Get(it, "type") != Str("apply_patch_call") ==>
      ToolArgs(it, json) == ""
  {
  }

  /** A patch call without usable arguments shows its operation. */
  lemma PatchCallFallsBackToOperation(it: Value, json: Value -> string)
    requires DirectArgs(it, json) == "" && Get(it, "type") == Str("apply_patch_call")
    ensures ToolArgs(it, json) == (if Truthy(Get(it, "operation")) then json(Get(it, "operation")) else "")
  {
  }
}
