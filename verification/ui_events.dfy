/**
 * The notifications the agent side sends to the terminal UI: input-mode changes, new
 * chat messages, streamed text, cost figures and shell-command rows.
 */
module UiEvents {
  import opened Wrappers

  datatype InputMode = Thinking | Waiting | Denied | Approving | Approved

  datatype MessageKind = UserMessage | AgentMessage | ToolMessage | InterruptedMessage

  /** A chat message as pushed; `args` is set on tool messages only. */
  datatype NewMessage = NewMessage(kind: MessageKind, text: string, args: Option<string>)

  datatype Emit =
    | SetInputMode(mode: InputMode)
      /** `setTimeout(curryEmitToListeners('SetInputMode', mode), 1000)`: a mode change one second later. */
    | SetInputModeLater(laterMode: InputMode)
    | PushNewMessages(messages: seq<NewMessage>)
    | UpdateLastMessageText(delta: string)
    | UpdateCost(totalCost: real)
    | AddShellCommand(command: string, commandArgs: string, running: bool)
    | UpdateShellCommand(id: int, stillRunning: bool, exitCode: int)

  function AgentText(text: string): NewMessage {
    NewMessage(AgentMessage, text, None)
  }

  /** A notification about streamed agent text: a push of agent messages, or an append to the last one. */
  predicate IsTextEmit(e: Emit) {
    e.UpdateLastMessageText? || (e.PushNewMessages? && |e.messages| > 0
      && forall i :: 0 <= i < |e.messages| ==> e.messages[i].kind == AgentMessage)
  }

  /** The text notifications of `es`, in order. */
  function TextEmits(es: seq<Emit>): (r: seq<Emit>)
    ensures |r| <= |es|
    decreases |es|
  {
    if |es| == 0 then []
    else TextEmits(es[..|es| - 1]) + (if IsTextEmit(es[|es| - 1]) then [es[|es| - 1]] else [])
  }

  lemma {:induction false} TextEmitsAppend(a: seq<Emit>, b: seq<Emit>)
    ensures TextEmits(a + b) == TextEmits(a) + TextEmits(b)
    decreases |b|
  {
    if |b| == 0 {
      assert a + b == a;
    } else {
      assert (a + b)[..|a + b| - 1] == a + b[..|b| - 1];
      TextEmitsAppend(a, b[..|b| - 1]);
    }
  }
}
