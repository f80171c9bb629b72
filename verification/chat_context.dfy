/**
 * The chat transcript the terminal UI keeps: the initial messages, pushes of new ones, and
 * streamed text appended to the last agent message.
 */
module ChatContext {
  import opened Wrappers
  import opened UiEvents

  /** A message on screen; `version` changes whenever its text does. */
  datatype Message = Message(id: int, kind: MessageKind, text: string, args: Option<string>, version: int)

  /** A message the agent side hands over at start-up; its version may be missing. */
  datatype Seed = Seed(kind: MessageKind, text: string, args: Option<string>, version: Option<int>)

  const Greeting := "What shall we build today? (type \"exit\" or Ctrl+X to quit)"

  /** Every message's id is its position in the list. */
  predicate IdsAreIndices(ms: seq<Message>) {
    forall i :: 0 <= i < |ms| ==> ms[i].id == i
  }

  /**
   * The messages the chat starts with: the seeds numbered by position with version 1 where
   * none is given, or the greeting when there are no seeds.
   */
  function InitialMessages(seeds: Option<seq<Seed>>): (r: seq<Message>)
    ensures IdsAreIndices(r)
    ensures seeds.None? ==> r == [Message(0, AgentMessage, Greeting, None, 1)]
    ensures seeds.Some? ==> |r| == |seeds.value|
    ensures seeds.Some? ==> forall i :: 0 <= i < |r| ==>
      (r[i].kind == seeds.value[i].kind && r[i].text == seeds.value[i].text
       && r[i].args == seeds.value[i].args && r[i].version == seeds.value[i].version.GetOr(1))
  {
    match seeds
    case None => [Message(0, AgentMessage, Greeting, None, 1)]
    case Some(ss) =>
      seq(|ss|, i requires 0 <= i < |ss| => Message(i, ss[i].kind, ss[i].text, ss[i].args, ss[i].version.GetOr(1)))
  }

  /** `PushNewMessages`: the new messages go to the end, numbered on from the old length, at version 1. */
  function Push(prev: seq<Message>, messages: seq<NewMessage>): (r: seq<Message>)
    ensures |r| == |prev| + |messages| && r[..|prev|] == prev
    ensures forall i :: 0 <= i < |messages| ==>
      r[|prev| + i] == Message(|prev| + i, messages[i].kind, messages[i].text, messages[i].args, 1)
  {
    prev + seq(|messages|, i requires 0 <= i < |messages| =>
      Message(|prev| + i, messages[i].kind, messages[i].text, messages[i].args, 1))
  }

  /** The position of the last agent message, if there is one. */
  function LastAgentIndex(ms: seq<Message>): (r: Option<nat>)
    ensures r.Some? ==> r.value < |ms| && ms[r.value].kind == AgentMessage
    ensures r.Some? ==> forall j :: r.value < j < |ms| ==> ms[j].kind != AgentMessage
    ensures r.None? ==> forall j :: 0 <= j < |ms| ==> ms[j].kind != AgentMessage
    decreases |ms|
  {
    if |ms| == 0 then None
    else if ms[|ms| - 1].kind == AgentMessage then Some(|ms| - 1)
    else LastAgentIndex(ms[..|ms| - 1])
  }

  /**
   * `UpdateLastMessageText`: the streamed text is appended to the last agent message;
   * without one, nothing changes.
   */
  function AppendToLast(prev: seq<Message>, text: string): (r: seq<Message>)
    ensures |r| == |prev|
    ensures (forall j :: 0 <= j < |prev| ==> prev[j].kind != AgentMessage) ==> r == prev
  {
    if |prev| == 0 then prev
    else match LastAgentIndex(prev)
      case None => prev
      case Some(i) =>
        var last := prev[i];
        prev[i := last.(text := last.text + text, version := last.version + 1)]
  }

  // ---- properties ----

  /** A push keeps every message numbered by its position. */
  lemma PushKeepsIds(prev: seq<Message>, messages: seq<NewMessage>)
    requires IdsAreIndices(prev)
    ensures IdsAreIndices(Push(prev, messages))
  {
    var r := Push(prev, messages);
    forall i | 0 <= i < |r| ensures r[i].id == i {
      if i < |prev| {
        assert r[i] == r[..|prev|][i];
      } else {
        assert r[|prev| + (i - |prev|)].id == i;
      }
    }
  }

  /** Two pushes are one push of both lists. */
  lemma PushTwice(prev: seq<Message>, a: seq<NewMessage>, b: seq<NewMessage>)
    ensures Push(Push(prev, a), b) == Push(prev, a + b)
  {
    var r1, r2 := Push(Push(prev, a), b), Push(prev, a + b);
    assert |r1| == |r2|;
    forall i | 0 <= i < |r1| ensures r1[i] == r2[i] {
      if i < |prev| {
        assert r1[i] == Push(prev, a)[..|prev|][i];
        assert r2[i] == r2[..|prev|][i];
      } else if i < |prev| + |a| {
        var k := i - |prev|;
        assert r1[i] == Push(prev, a)[..|prev| + |a|][i];
        assert r1[i] == Push(prev, a)[|prev| + k];
        assert r2[|prev| + k] == Message(|prev| + k, (a + b)[k].kind, (a + b)[k].text, (a + b)[k].args, 1);
      } else {
        var k := i - |prev| - |a|;
        assert r1[|prev| + |a| + k] == Message(|prev| + |a| + k, b[k].kind, b[k].text, b[k].args, 1);
        assert r2[|prev| + (|a| + k)] == Message(|prev| + |a| + k, (a + b)[|a| + k].kind, (a + b)[|a| + k].text, (a + b)[|a| + k].args, 1);
      }
    }
  }

  /**
   * With an agent message present, only the last one changes: the text gains the streamed
   * text and the version goes up by one; every other message stays as it was.
   */
  lemma AppendChangesLastAgentOnly(prev: seq<Message>, text: string, i: nat)
    requires i < |prev| && prev[i].kind == AgentMessage
    requires forall j :: i < j < |prev| ==> prev[j].kind != AgentMessage
    ensures var r := AppendToLast(prev, text);
      r[i] == prev[i].(text := prev[i].text + text, version := prev[i].version + 1)
      && forall j :: 0 <= j < |prev| && j != i ==> r[j] == prev[j]
  {
    assert LastAgentIndex(prev) == Some(i);
  }

  /** Streamed chunks accumulate: two appends leave the text of one append of both. */
  lemma AppendsAccumulate(prev: seq<Message>, a: string, b: string)
    ensures var r1, r2 := AppendToLast(AppendToLast(prev, a), b), AppendToLast(prev, a + b);
      |r1| == |r2| && forall j :: 0 <= j < |r1| ==> r1[j].text == r2[j].text && r1[j].id == r2[j].id
  {
    var once := AppendToLast(prev, a);
    if |prev| > 0 && LastAgentIndex(prev).Some? {
      var i := LastAgentIndex(prev).value;
      AppendChangesLastAgentOnly(prev, a, i);
      AppendChangesLastAgentOnly(prev, a + b, i);
      AppendChangesLastAgentOnly(once, b, i);
      assert prev[i].text + a + b == prev[i].text + (a + b);
    } else {
      assert once == prev;
    }
  }
}
