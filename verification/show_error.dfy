/**
 * The error report shown when a turn fails: the error's name, code, status and message,
 * a hint when the provider complains about a missing tool output, the last tool call,
 * a short excerpt of the response data and the top of the stack.
 */
module ShowError {
  import opened Wrappers
  import opened Strings
  import opened JsValues
  import opened StreamEvents

  /** `error ?? {}`. */
  function ErrorObject(error: Value): Value {
    Coalesce(error, Obj(map[]))
  }

  /** `err.name || 'Error'`, as the template literal renders it. */
  function ErrName(err: Value, str: Value -> string): (r: string)
    ensures !Truthy(Get(err, "name")) ==> r == "Error"
    ensures Truthy(Get(err, "name")) && Get(err, "name").Str? ==> r == Get(err, "name").s
    ensures Truthy(Get(err, "name")) && !Get(err, "name").Str? ==> r == str(Get(err, "name"))
  {
    Text(Or(Get(err, "name"), Str("Error")), str)
  }

  /**
   * `err.message || String(err)`. A truthy `message` that is not a string is rendered
   * here, but the report never gets that far: see `ReportThrows`.
   */
  function ErrMessage(err: Value, str: Value -> string): (r: string)
    ensures !Truthy(Get(err, "message")) ==> r == str(err)
    ensures Truthy(Get(err, "message")) && Get(err, "message").Str? ==> r == Get(err, "message").s
  {
    Text(Or(Get(err, "message"), Str(str(err))), str)
  }

  /**
   * The report itself throws: `message.match(...)` is called on a truthy `message` that
   * is not a string (a number, an array, an object), which has no `match` method. This
   * happens before any notification is sent.
   */
  predicate ReportThrows(error: Value) {
    var m := Get(ErrorObject(error), "message");
    Truthy(m) && !m.Str?
  }

  /** ` code=X` for a truthy code, else nothing. */
  function CodePart(err: Value, str: Value -> string): (r: string)
    ensures r == "" <==> !Truthy(Get(err, "code"))
  {
    if Truthy(Get(err, "code")) then " code=" + Text(Get(err, "code"), str) else ""
  }

  /** `err.status || err.statusCode || err.response?.status`. */
  function StatusValue(err: Value): Value {
    Or(Or(Get(err, "status"), Get(err, "statusCode")), Get(Get(err, "response"), "status"))
  }

  function StatusPart(err: Value, str: Value -> string): (r: string)
    ensures r == "" <==> !Truthy(StatusValue(err))
  {
    if Truthy(StatusValue(err)) then " status=" + Text(StatusValue(err), str) else ""
  }

  // ---- the call id in the provider's message ----

  predicate IsIdChar(c: char) {
    ('A' <= c <= 'Z') || ('a' <= c <= 'z') || ('0' <= c <= '9') || c == '_' || c == '-'
  }

  /** The longest run at the start of `s` whose characters all satisfy `p`. */
  function Run(s: string, p: char -> bool): (r: string)
    ensures r <= s
    ensures forall i :: 0 <= i < |r| ==> p(r[i])
    ensures |r| == |s| || !p(s[|r|])
    decreases |s|
  {
    if |s| > 0 && p(s[0]) then [s[0]] + Run(s[1..], p) else []
  }

  /** `s` starts with the lower-case ASCII text `p`, ignoring ASCII case. */
  predicate StartsWithCi(s: string, p: string) {
    |p| <= |s| && ToLower(s[..|p|]) == p
  }

  const FunctionCall: string := "function call"
  const CallPrefix: string := "call_"

  /** What follows `function call`: white space, then `call_` and at least one id character, captured. */
  function CaptureAfter(rest: string): (r: Option<string>)
    ensures r.Some? ==> |r.value| > |CallPrefix| && ToLower(r.value[..|CallPrefix|]) == CallPrefix
    ensures r.Some? ==> forall k :: |CallPrefix| <= k < |r.value| ==> IsIdChar(r.value[k])
  {
    var ws := Run(rest, IsWs);
    var afterWs := rest[|ws|..];
    if |ws| >= 1 && StartsWithCi(afterWs, CallPrefix) then
      var id := Run(afterWs[|CallPrefix|..], IsIdChar);
      if |id| >= 1 then
        var r := afterWs[..|CallPrefix|] + id;
        assert r[..|CallPrefix|] == afterWs[..|CallPrefix|];
        Some(r)
      else None
    else None
  }

  /** `function call\s+(call_[A-Za-z0-9_-]+)` (case-insensitive) matched at position `i`: the captured id. */
  function CallIdAt(m: string, i: nat): (r: Option<string>)
    requires i <= |m|
    ensures r.Some? ==> StartsWithCi(m[i..], FunctionCall)
  {
    if StartsWithCi(m[i..], FunctionCall) then CaptureAfter(m[i + |FunctionCall|..]) else None
  }

  /** The leftmost match at or after `i`. */
  function FindCallId(m: string, i: nat): (r: Option<string>)
    requires i <= |m|
    ensures r.Some? ==> exists j :: i <= j <= |m| && CallIdAt(m, j) == r
    ensures r.None? ==> forall j :: i <= j <= |m| ==> CallIdAt(m, j).None?
    decreases |m| - i
  {
    if CallIdAt(m, i).Some? then CallIdAt(m, i)
    else if i == |m| then None
    else FindCallId(m, i + 1)
  }

  const NoToolOutput: string := "no tool output found for function call"

  /** `/No tool output found for function call/i.test(message)`. */
  predicate IsNoToolOutput(message: string) {
    Contains(ToLower(message), NoToolOutput)
  }

  const HintHead: string :=
    "\nHint: A tool likely threw or returned no result. Ensure tools always return a structured object (e.g., { status, output }) and never throw. If this followed a tool call"
  const HintTail: string := ", review that tool's implementation and logs."

  predicate HasInfo(lastToolCallInfo: Option<string>) {
    lastToolCallInfo.Some? && lastToolCallInfo.value != ""
  }

  function CallIdNote(callId: Option<string>): string {
    match callId
    case Some(c) => " (" + c + ")"
    case None => ""
  }

  function InfoNote(lastToolCallInfo: Option<string>): string {
    if HasInfo(lastToolCallInfo) then ": " + lastToolCallInfo.value else ""
  }

  function Hint(message: string, lastToolCallInfo: Option<string>): (r: string)
    ensures r == "" <==> !IsNoToolOutput(message)
  {
    if IsNoToolOutput(message) then
      HintHead + CallIdNote(FindCallId(message, 0)) + InfoNote(lastToolCallInfo) + HintTail
    else ""
  }

  // ---- response data and stack ----

  const DataLimit: nat := 500

  /** The ellipsis marker exactly as the source file spells it (the UTF-8 bytes of `…` read as Mac Roman). */
  const TruncationMarker: string := "‚Ä¶"

  const DataHead: string := "\nResponse data: "

  /** `response?.data ?? data`. */
  function ResponseData(err: Value): Value {
    Coalesce(Get(Get(err, "response"), "data"), Get(err, "data"))
  }

  function Excerpt(s: string): (r: string)
    ensures |s| <= DataLimit ==> r == s
    ensures |s| > DataLimit ==> r == s[..DataLimit] + TruncationMarker
    ensures |r| <= DataLimit + |TruncationMarker|
  {
    if |s| > DataLimit then s[..DataLimit] + TruncationMarker else s
  }

  /**
   * The response-data line. `json` is `JSON.stringify`, `None` when it throws or yields
   * no string; the `catch` then leaves the line out.
   */
  function DataPart(err: Value, json: Value -> Option<string>): (r: string)
    ensures !Truthy(ResponseData(err)) ==> r == ""
  {
    var data := ResponseData(err);
    if !Truthy(data) then ""
    else
      var s := if data.Str? then Some(data.s) else json(data);
      if s.None? then "" else DataHead + Excerpt(s.value)
  }

  const StackLines: nat := 8

  function Take<T>(xs: seq<T>, n: nat): (r: seq<T>)
    ensures |r| == if |xs| < n then |xs| else n
    ensures r == xs[..|r|]
  {
    if |xs| <= n then xs else xs[..n]
  }

  function StackPart(err: Value, str: Value -> string): string {
    var stack := Get(err, "stack");
    if Truthy(stack) then "\nStack: " + Join(Take(Split(Text(stack, str), '\n'), StackLines), "\n") else ""
  }

  function LastToolPart(lastToolCallInfo: Option<string>): (r: string)
    ensures r == "" <==> !HasInfo(lastToolCallInfo)
  {
    if HasInfo(lastToolCallInfo) then "\nLast tool call: " + lastToolCallInfo.value else ""
  }

  /**
   * `showErrorToUser`'s text: name `:` code status ` ` message, then hint, last tool,
   * response data and stack.
   */
  function Composed(error: Value, lastToolCallInfo: Option<string>, str: Value -> string,
                    json: Value -> Option<string>): (r: string)
    ensures StartsWith(r, ErrName(ErrorObject(error), str) + ":")
    ensures Contains(r, ErrMessage(ErrorObject(error), str))
    ensures IsNoToolOutput(ErrMessage(ErrorObject(error), str)) ==> Contains(r, HintHead)
    ensures HasInfo(lastToolCallInfo) ==> Contains(r, "\nLast tool call: " + lastToolCallInfo.value)
    ensures (!IsNoToolOutput(ErrMessage(ErrorObject(error), str)) && !HasInfo(lastToolCallInfo)
             && DataPart(ErrorObject(error), json) == "" && StackPart(ErrorObject(error), str) == "") ==>
              EndsWith(r, " " + ErrMessage(ErrorObject(error), str))
  {
    var err := ErrorObject(error);
    var message := ErrMessage(err, str);
    var name := ErrName(err, str);
    var lead := name + ":" + CodePart(err, str) + StatusPart(err, str);
    var hint, last := Hint(message, lastToolCallInfo), LastToolPart(lastToolCallInfo);
    var tail := DataPart(err, json) + StackPart(err, str);
    PrefixOfAppend3(name + ":", CodePart(err, str), StatusPart(err, str), "");
    assert lead + "" == lead;
    ShapeStart(name + ":", lead, message, hint, last, tail);
    ShapeMessage(lead, message, hint, last, tail);
    ShapeLast(lead, message, hint, last, tail);
    HintStartsWithHead(message, lastToolCallInfo);
    ShapeHint(lead, message, hint, last, tail);
    ShapeEnd(lead, message, hint, last, tail);
    lead + " " + message + hint + last + tail
  }

  lemma HintStartsWithHead(message: string, lastToolCallInfo: Option<string>)
    ensures IsNoToolOutput(message) ==> StartsWith(Hint(message, lastToolCallInfo), HintHead)
  {
    if IsNoToolOutput(message) {
      PrefixOfAppend3(HintHead, CallIdNote(FindCallId(message, 0)), InfoNote(lastToolCallInfo), HintTail);
    }
  }

  lemma PrefixOfAppend3(h: string, a: string, b: string, c: string)
    ensures StartsWith(h + a + b + c, h)
  {
    assert (h + a + b + c)[..|h|] == h;
  }

  // Where the parts of the report sit, one fact per lemma, for `Composed`'s contract.

  lemma ShapeStart(head: string, lead: string, message: string, hint: string, last: string, tail: string)
    requires StartsWith(lead, head)
    ensures StartsWith(lead + " " + message + hint + last + tail, head)
  {
    assert (lead + " " + message + hint + last + tail)[..|lead|] == lead;
  }

  lemma ShapeEnd(lead: string, message: string, hint: string, last: string, tail: string)
    ensures hint == last == tail == "" ==> EndsWith(lead + " " + message + hint + last + tail, " " + message)
  {
    if hint == last == tail == "" {
      assert lead + " " + message + hint + last + tail == lead + " " + message;
      EndsWithLastTwo(lead, " ", message);
    }
  }

  lemma ShapeMessage(lead: string, message: string, hint: string, last: string, tail: string)
    ensures Contains(lead + " " + message + hint + last + tail, message)
  {
    assert lead + " " + message + hint + last + tail == (lead + " ") + message + (hint + last + tail);
    ContainsMiddle(lead + " ", message, hint + last + tail);
  }

  lemma ShapeLast(lead: string, message: string, hint: string, last: string, tail: string)
    ensures Contains(lead + " " + message + hint + last + tail, last)
  {
    ContainsMiddle(lead + " " + message + hint, last, tail);
  }

  lemma ShapeHint(lead: string, message: string, hint: string, last: string, tail: string)
    ensures StartsWith(hint, HintHead) ==> Contains(lead + " " + message + hint + last + tail, HintHead)
  {
    if StartsWith(hint, HintHead) {
      var before, rest := lead + " " + message, hint[|HintHead|..];
      assert hint == HintHead + rest;
      assert lead + " " + message + hint + last + tail == before + HintHead + (rest + last + tail);
      ContainsMiddle(before, HintHead, rest + last + tail);
    }
  }

  // ---- properties ----

  /** The status is taken from `status`, else `statusCode`, else `response.status`, the first truthy one. */
  lemma StatusPrecedence(err: Value)
    ensures Truthy(Get(err, "status")) ==> StatusValue(err) == Get(err, "status")
    ensures !Truthy(Get(err, "status")) && Truthy(Get(err, "statusCode")) ==> StatusValue(err) == Get(err, "statusCode")
    ensures !Truthy(Get(err, "status")) && !Truthy(Get(err, "statusCode")) ==>
      StatusValue(err) == Get(Get(err, "response"), "status")
  {
  }

  /** A report whose optional parts other than the last tool call are empty reads `name: message` and that part. */
  lemma BareReport(name: string, message: string, a: string, b: string, c: string, d: string, e: string, f: string)
    requires a == b == c == e == f == ""
    ensures name + ":" + a + b + " " + message + c + d + e + f == name + ": " + message + d
  {
  }

  /** An error with only a name and a message reads `name: message`. */
  lemma PlainErrorReport(name: string, message: string, str: Value -> string, json: Value -> Option<string>)
    requires name != "" && message != "" && !IsNoToolOutput(message)
    ensures Composed(Obj(map["name" := Str(name), "message" := Str(message)]), None, str, json) == name + ": " + message
  {
    var err := Obj(map["name" := Str(name), "message" := Str(message)]);
    assert ErrorObject(err) == err;
    assert ErrName(err, str) == name && ErrMessage(err, str) == message;
    assert CodePart(err, str) == "" && StatusPart(err, str) == "" by {
      assert Get(err, "code") == Undefined && Get(err, "status") == Undefined && Get(err, "statusCode") == Undefined;
      assert Get(err, "response") == Undefined;
    }
    assert DataPart(err, json) == "" && StackPart(err, str) == "" by {
      assert Get(err, "response") == Undefined && Get(err, "data") == Undefined && Get(err, "stack") == Undefined;
    }
    BareReport(name, message, CodePart(err, str), StatusPart(err, str), Hint(message, None), LastToolPart(None),
               DataPart(err, json), StackPart(err, str));
    assert name + ": " + message + LastToolPart(None) == name + ": " + message;
  }

  /** A null error is reported as the empty object: `Error: ` and its string form. */
  lemma NullErrorReport(str: Value -> string, json: Value -> Option<string>, info: Option<string>)
    requires str(Obj(map[])) != "" && !IsNoToolOutput(str(Obj(map[])))
    ensures Composed(Null, info, str, json) == "Error: " + str(Obj(map[])) + LastToolPart(info)
  {
    var err := Obj(map[]);
    var message := str(Obj(map[]));
    assert ErrorObject(Null) == err;
    ComposedParts(Null, info, str, json);
    EmptyObjectParts(str, json);
    BareReport("Error", message, CodePart(err, str), StatusPart(err, str), Hint(message, info), LastToolPart(info),
               DataPart(err, json), StackPart(err, str));
  }

  /** The report is its parts in order: headline, hint, last tool call, data, stack. */
  lemma ComposedParts(error: Value, info: Option<string>, str: Value -> string, json: Value -> Option<string>)
    ensures var err := ErrorObject(error);
      var message := ErrMessage(err, str);
      Composed(error, info, str, json)
        == ErrName(err, str) + ":" + CodePart(err, str) + StatusPart(err, str) + " " + message
           + Hint(message, info) + LastToolPart(info) + DataPart(err, json) + StackPart(err, str)
  {
  }

  /** The empty object has no name, message, code, status, data or stack of its own. */
  lemma EmptyObjectParts(str: Value -> string, json: Value -> Option<string>)
    ensures ErrName(Obj(map[]), str) == "Error" && ErrMessage(Obj(map[]), str) == str(Obj(map[]))
    ensures CodePart(Obj(map[]), str) == "" && StatusPart(Obj(map[]), str) == ""
    ensures DataPart(Obj(map[]), json) == "" && StackPart(Obj(map[]), str) == ""
  {
    var err := Obj(map[]);
    assert Get(err, "name") == Undefined && Get(err, "message") == Undefined;
    assert Get(err, "code") == Undefined && Get(err, "status") == Undefined && Get(err, "statusCode") == Undefined;
    assert Get(err, "response") == Undefined && Get(err, "data") == Undefined && Get(err, "stack") == Undefined;
  }

  /** Short response data is shown whole; long data is cut to its first 500 characters and marked. */
  lemma DataExcerptBounds(err: Value, json: Value -> Option<string>)
    requires ResponseData(err).Str? && ResponseData(err).s != ""
    ensures var s := ResponseData(err).s;
      DataPart(err, json) == DataHead + (if |s| <= DataLimit then s else s[..DataLimit] + TruncationMarker)
    ensures |DataPart(err, json)| <= |DataHead| + DataLimit + |TruncationMarker|
  {
  }

  /** The stack shown is exactly the first eight of its lines (fewer when it is shorter). */
  lemma StackFirstLines(err: Value, str: Value -> string)
    requires Truthy(Get(err, "stack"))
    ensures var lines := Split(Text(Get(err, "stack"), str), '\n');
      StackPart(err, str) == "\nStack: " + Join(Take(lines, StackLines), "\n")
      && Split(Join(Take(lines, StackLines), "\n"), '\n') == Take(lines, StackLines)
      && |Take(lines, StackLines)| <= StackLines
  {
    var lines := Split(Text(Get(err, "stack"), str), '\n');
    var shown := Take(lines, StackLines);
    assert |shown| >= 1;
    assert forall i :: 0 <= i < |shown| ==> shown[i] == lines[i];
    SplitJoin(shown, '\n');
  }

  lemma KeywordsLowerCase()
    ensures ToLower(FunctionCall) == FunctionCall && ToLower(CallPrefix) == CallPrefix
  {
  }

  /** An id starting `call_` and then a character that cannot continue it: the id is captured whole. */
  lemma CaptureIdAt(afterWs: string, id: string, trail: string)
    requires afterWs == id + trail
    requires |id| > |CallPrefix| && id[..|CallPrefix|] == CallPrefix
    requires forall k :: |CallPrefix| <= k < |id| ==> IsIdChar(id[k])
    requires trail == "" || !IsIdChar(trail[0])
    ensures StartsWithCi(afterWs, CallPrefix)
    ensures afterWs[..|CallPrefix|] + Run(afterWs[|CallPrefix|..], IsIdChar) == id
  {
    KeywordsLowerCase();
    assert afterWs[..|CallPrefix|] == CallPrefix;
    var tail := id[|CallPrefix|..];
    assert afterWs[|CallPrefix|..] == tail + trail;
    RunOfPrefix(tail, trail, IsIdChar);
    assert CallPrefix + tail == id;
  }

  /** White space, then an id starting `call_`, then a character that cannot continue it: the id is captured whole. */
  lemma CaptureWholeId(ws: string, id: string, trail: string)
    requires |ws| >= 1 && forall k :: 0 <= k < |ws| ==> IsWs(ws[k])
    requires |id| > |CallPrefix| && id[..|CallPrefix|] == CallPrefix
    requires forall k :: |CallPrefix| <= k < |id| ==> IsIdChar(id[k])
    requires trail == "" || !IsIdChar(trail[0])
    ensures CaptureAfter(ws + id + trail) == Some(id)
  {
    var rest := ws + id + trail;
    assert id[0] == 'c' by { assert id[0] == id[..|CallPrefix|][0]; }
    RunOfPrefix(ws, id + trail, IsWs);
    assert rest == ws + (id + trail);
    assert Run(rest, IsWs) == ws;
    assert rest[|ws|..] == id + trail;
    CaptureIdAt(rest[|ws|..], id, trail);
  }

  lemma KeywordAt(m: string, rest: string)
    requires m == FunctionCall + rest
    ensures StartsWithCi(m, FunctionCall) && m[|FunctionCall|..] == rest
  {
    KeywordsLowerCase();
    assert m[..|FunctionCall|] == FunctionCall;
  }

  /** `call_` followed by at least one id character. */
  predicate IsCallId(id: string) {
    |id| > |CallPrefix| && id[..|CallPrefix|] == CallPrefix
    && forall k :: |CallPrefix| <= k < |id| ==> IsIdChar(id[k])
  }

  /** A message that starts with `function call` and a capturable rest yields that capture first. */
  lemma CaptureAtStart(rest: string, id: string)
    requires CaptureAfter(rest) == Some(id)
    ensures FindCallId(FunctionCall + rest, 0) == Some(id)
  {
    var m := FunctionCall + rest;
    KeywordAt(m, rest);
    assert m[0..] == m;
  }

  /** The id following `function call` and white space is what the scan finds first. */
  lemma CallIdCaptured(ws: string, id: string, trail: string)
    requires |ws| >= 1 && AllWs(ws) && IsCallId(id)
    requires trail == "" || !IsIdChar(trail[0])
    ensures FindCallId(FunctionCall + ws + id + trail, 0) == Some(id)
  {
    CaptureWholeId(ws, id, trail);
    CaptureAtStart(ws + id + trail, id);
    AppendAssoc4(FunctionCall, ws, id, trail);
  }

  /** A run of `p`-characters followed by a character outside `p` is the whole run. */
  lemma {:induction false} RunOfPrefix(a: string, b: string, p: char -> bool)
    requires forall k :: 0 <= k < |a| ==> p(a[k])
    requires b == "" || !p(b[0])
    ensures Run(a + b, p) == a
    decreases |a|
  {
    if |a| > 0 {
      assert (a + b)[1..] == a[1..] + b;
      RunOfPrefix(a[1..], b, p);
      assert a == [a[0]] + a[1..];
    } else {
      assert a + b == b;
    }
  }

  /** For the missing-tool-output complaint the hint names the call id the scan found. */
  lemma HintNamesCallId(message: string, info: Option<string>, callId: string)
    requires IsNoToolOutput(message) && FindCallId(message, 0) == Some(callId)
    ensures Hint(message, info) == HintHead + CallIdNote(Some(callId)) + InfoNote(info) + HintTail
    ensures Contains(Hint(message, info), callId)
  {
    var note := CallIdNote(Some(callId));
    ContainsMiddle(" (", callId, ")");
    ContainsAppend(HintHead, note, callId);
    ContainsExtend(HintHead + note, InfoNote(info), callId);
    ContainsExtend(HintHead + note + InfoNote(info), HintTail, callId);
  }
}
