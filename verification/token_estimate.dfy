/**
 * The rough token estimate: about four characters per token, counted over the text an
 * item carries. The general estimator also counts the serialised `call` and `result`
 * of tool-call items; the compaction session keeps a local copy without those terms.
 * `JSON.stringify` is a parameter.
 */
module TokenEstimate {
  import opened JsValues

  /** The characters one element of a content array contributes: its `text`, else its `content`, else itself if it is a string. */
  function PartChars(c: Value): (n: nat)
    ensures !Truthy(c) ==> n == 0
    ensures Get(c, "text").Str? ==> n == |Get(c, "text").s|
    ensures !Get(c, "text").Str? && Get(c, "content").Str? ==> n == |Get(c, "content").s|
    ensures c.Str? ==> n == |c.s|
  {
    if !Truthy(c) then 0
    else if Get(c, "text").Str? then |Get(c, "text").s|
    else if Get(c, "content").Str? then |Get(c, "content").s|
    else if c.Str? then |c.s|
    else 0
  }

  function PartsChars(cs: seq<Value>): nat {
    if |cs| == 0 then 0 else PartChars(cs[0]) + PartsChars(cs[1..])
  }

  function StrLen(v: Value): nat {
    if v.Str? then |v.s| else 0
  }

  /** The characters one item contributes; `withCalls` adds the serialised tool call or result. */
  function ItemChars(it: Value, withCalls: bool, stringify: Value -> string): (n: nat)
    ensures !Truthy(it) ==> n == 0
    ensures n >= StrLen(Get(it, "content")) + StrLen(Get(it, "text"))
  {
    if !Truthy(it) then 0
    else
      var content := Get(it, "content");
      var kind := Get(it, "type");
      (if content.Arr? then PartsChars(content.elems) else 0)
      + StrLen(content)
      + StrLen(Get(it, "text"))
      + (if withCalls && kind == Str("function_call") && Truthy(Get(it, "call")) then |stringify(Get(it, "call"))| else 0)
      + (if withCalls && kind == Str("function_call_result") && Truthy(Get(it, "result")) then |stringify(Get(it, "result"))| else 0)
  }

  function Chars(items: seq<Value>, withCalls: bool, stringify: Value -> string): nat {
    if |items| == 0 then 0 else ItemChars(items[0], withCalls, stringify) + Chars(items[1..], withCalls, stringify)
  }

  /** `Math.ceil(chars / 4)` for a non-negative count. */
  function CeilQuarter(chars: nat): (t: nat)
    ensures 4 * t >= chars && 4 * t < chars + 4
  {
    (chars + 3) / 4
  }

  /** The general estimator (tool calls and results included). */
  function EstimateTokens(items: seq<Value>, stringify: Value -> string): (t: nat)
    ensures 4 * t >= Chars(items, true, stringify) && 4 * t < Chars(items, true, stringify) + 4
    ensures |items| == 0 ==> t == 0
  {
    CeilQuarter(Chars(items, true, stringify))
  }

  /** The compaction session's local estimator (text only). */
  function EstimateTokensLocal(items: seq<Value>): (t: nat)
    ensures 4 * t >= Chars(items, false, _ => "") && 4 * t < Chars(items, false, _ => "") + 4
    ensures |items| == 0 ==> t == 0
  {
    CeilQuarter(Chars(items, false, _ => ""))
  }

  /** Character counts add up over concatenation. */
  lemma {:induction false} CharsAppend(a: seq<Value>, b: seq<Value>, withCalls: bool, stringify: Value -> string)
    ensures Chars(a + b, withCalls, stringify) == Chars(a, withCalls, stringify) + Chars(b, withCalls, stringify)
  {
    if |a| == 0 {
      assert a + b == b;
    } else {
      assert (a + b)[0] == a[0];
      assert (a + b)[1..] == a[1..] + b;
      CharsAppend(a[1..], b, withCalls, stringify);
    }
  }

  lemma CeilQuarterMonotone(x: nat, y: nat)
    requires x <= y
    ensures CeilQuarter(x) <= CeilQuarter(y)
  {
  }

  /** Appending items never lowers the estimate. */
  lemma EstimateMonotone(a: seq<Value>, b: seq<Value>, stringify: Value -> string)
    ensures EstimateTokens(a, stringify) <= EstimateTokens(a + b, stringify)
  {
    CharsAppend(a, b, true, stringify);
    CeilQuarterMonotone(Chars(a, true, stringify), Chars(a + b, true, stringify));
  }

  /** A falsy item adds nothing to the estimate. */
  lemma FalsyItemAddsNothing(a: seq<Value>, v: Value, stringify: Value -> string)
    requires !Truthy(v)
    ensures EstimateTokens(a + [v], stringify) == EstimateTokens(a, stringify)
  {
    CharsAppend(a, [v], true, stringify);
    assert Chars([v], true, stringify) == 0 by {
      assert [v][1..] == [];
    }
  }

  /** The local estimate never exceeds the general one: it counts a subset of the same terms. */
  lemma {:induction false} LocalAtMostGeneral(items: seq<Value>, stringify: Value -> string)
    ensures Chars(items, false, _ => "") <= Chars(items, true, stringify)
    ensures EstimateTokensLocal(items) <= EstimateTokens(items, stringify)
  {
    if |items| > 0 {
      LocalAtMostGeneral(items[1..], stringify);
    }
    CeilQuarterMonotone(Chars(items, false, _ => ""), Chars(items, true, stringify));
  }

  /** For items without tool calls or results the two estimators agree. */
  lemma {:induction false} LocalEqualsGeneralWithoutCalls(items: seq<Value>, stringify: Value -> string)
    requires forall i :: 0 <= i < |items| ==> Get(items[i], "type") != Str("function_call") && Get(items[i], "type") != Str("function_call_result")
    ensures EstimateTokensLocal(items) == EstimateTokens(items, stringify)
  {
    CharsSameWithoutCalls(items, stringify);
  }

  lemma {:induction false} CharsSameWithoutCalls(items: seq<Value>, stringify: Value -> string)
    requires forall i :: 0 <= i < |items| ==> Get(items[i], "type") != Str("function_call") && Get(items[i], "type") != Str("function_call_result")
    ensures Chars(items, false, _ => "") == Chars(items, true, stringify)
  {
    if |items| > 0 {
      CharsSameWithoutCalls(items[1..], stringify);
    }
  }

  /** A message with a four-character string content and a one-character text estimates to two tokens. */
  lemma EstimateExample(stringify: Value -> string)
    ensures EstimateTokens([Obj(map["content" := Str("abcd"), "text" := Str("e")])], stringify) == 2
  {
    var it := Obj(map["content" := Str("abcd"), "text" := Str("e")]);
    assert ItemChars(it, true, stringify) == 5;
    assert [it][1..] == [];
  }
}
