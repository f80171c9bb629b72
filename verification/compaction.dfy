/**
 * The history rewrite used by compaction: the last three items are kept, everything
 * before them is handed to a summariser, and a system notice (carrying the summary
 * when there is a usable one) is put in front of the kept items.
 *
 * The summariser is a parameter: it receives the items to compact and returns the
 * summary text, or `None` when it fails or produces no text. A failure is never
 * propagated, so the function is total.
 */
module Compaction {
  import opened Wrappers
  import opened JsValues
  import opened Strings
  import opened Arrays

  const DefaultNotice := "... conversation history compacted ..."
  const SummaryHeader := "Key observations from earlier:\n"
  const RecentCount: nat := 3

  /** The item `system(text)` builds. */
  function SystemMessage(text: string): Value {
    Obj(map["type" := Str("message"), "role" := Str("system"), "content" := Str(text)])
  }

  /** Where `slice(-3)` / `slice(0, -3)` cut a history of `n` items. */
  function SplitPoint(n: nat): (k: nat)
    ensures k <= n && n - k == if n < RecentCount then n else RecentCount
  {
    if n >= RecentCount then n - RecentCount else 0
  }

  /** The last min(3, n) items, in their original order. */
  function RecentItems(items: seq<Value>): (r: seq<Value>)
    ensures |r| == if |items| < RecentCount then |items| else RecentCount
    ensures r == items[|items| - |r|..]
  {
    items[SplitPoint(|items|)..]
  }

  /** Everything before the recent tail. */
  function ItemsToCompact(items: seq<Value>): (r: seq<Value>)
    ensures r + RecentItems(items) == items
  {
    items[..SplitPoint(|items|)]
  }

  /** The input the summariser is called with, when it is called at all. */
  function SummariserInput(items: seq<Value>, compactionModel: string): (r: Option<seq<Value>>)
    ensures r.Some? <==> compactionModel != "" && |items| > RecentCount
    ensures r.Some? ==> r.value == items[..|items| - RecentCount]
  {
    if compactionModel != "" && |ItemsToCompact(items)| > 0 then Some(ItemsToCompact(items)) else None
  }

  /** The notice text for a summariser outcome: the trimmed summary under a header, or the default. */
  function NoticeFor(summary: Option<string>): (notice: string)
    ensures summary.Some? && Trim(summary.value) != "" ==> notice == SummaryHeader + Trim(summary.value)
    ensures summary.None? || Trim(summary.value) == "" ==> notice == DefaultNotice
  {
    if summary.Some? && Trim(summary.value) != "" then SummaryHeader + Trim(summary.value) else DefaultNotice
  }

  datatype CompactionArtifacts = CompactionArtifacts(noticeContent: string, itemsToAdd: seq<Value>)

  function CompactConversation(items: seq<Value>, compactionModel: string, summarise: seq<Value> -> Option<string>): (r: CompactionArtifacts)
    ensures SummariserInput(items, compactionModel).None? ==> r.noticeContent == DefaultNotice
    ensures SummariserInput(items, compactionModel).Some? ==>
      r.noticeContent == NoticeFor(summarise(SummariserInput(items, compactionModel).value))
    ensures |r.itemsToAdd| >= 1 && r.itemsToAdd[0] == SystemMessage(r.noticeContent)
    ensures r.itemsToAdd[1..] == FilterTruthy(RecentItems(items))
  {
    var input := SummariserInput(items, compactionModel);
    var notice := if input.Some? then NoticeFor(summarise(input.value)) else DefaultNotice;
    var added := FilterTruthy([SystemMessage(notice)] + RecentItems(items));
    FilterCons(SystemMessage(notice), RecentItems(items));
    CompactionArtifacts(notice, added)
  }

  /** The notice is either the default or begins with the summary header. */
  lemma NoticeShape(items: seq<Value>, compactionModel: string, summarise: seq<Value> -> Option<string>)
    ensures var n := CompactConversation(items, compactionModel, summarise).noticeContent;
      n == DefaultNotice || StartsWith(n, SummaryHeader)
  {
  }

  /** A summariser that fails, or returns only whitespace, leaves the default notice. */
  lemma FailedSummaryKeepsDefault(items: seq<Value>, compactionModel: string, summarise: seq<Value> -> Option<string>)
    requires forall xs :: summarise(xs).None? || Trim(summarise(xs).value) == ""
    ensures CompactConversation(items, compactionModel, summarise).noticeContent == DefaultNotice
  {
  }

  /** With truthy items, the rewritten history is the notice followed by exactly the last three items. */
  lemma CompactedShape(items: seq<Value>, compactionModel: string, summarise: seq<Value> -> Option<string>)
    requires |items| >= RecentCount
    requires forall i :: 0 <= i < |items| ==> Truthy(items[i])
    ensures var r := CompactConversation(items, compactionModel, summarise);
      r.itemsToAdd == [SystemMessage(r.noticeContent), items[|items| - 3], items[|items| - 2], items[|items| - 1]]
  {
    var r := CompactConversation(items, compactionModel, summarise);
    var recent := RecentItems(items);
    assert forall i :: 0 <= i < |recent| ==> Truthy(recent[i]);
    assert recent == [items[|items| - 3], items[|items| - 2], items[|items| - 1]];
    assert r.itemsToAdd == [r.itemsToAdd[0]] + r.itemsToAdd[1..];
  }

  /** No item before the recent tail survives, the first one included, unless it reappears in the tail or is the notice itself. */
  lemma EarlierItemsDropped(items: seq<Value>, compactionModel: string, summarise: seq<Value> -> Option<string>, i: nat)
    requires i < |items| - RecentCount
    requires items[i] !in RecentItems(items)
    requires items[i] != SystemMessage(CompactConversation(items, compactionModel, summarise).noticeContent)
    ensures items[i] !in CompactConversation(items, compactionModel, summarise).itemsToAdd
  {
    var r := CompactConversation(items, compactionModel, summarise);
    assert r.itemsToAdd == [r.itemsToAdd[0]] + r.itemsToAdd[1..];
  }

  /** The summariser receives the first n-3 items: for seven items, the first four. */
  lemma SummariserInputExample(a: Value, b: Value, c: Value, d: Value, e: Value, f: Value, g: Value)
    ensures SummariserInput([a, b, c, d, e, f, g], "gpt-5-nano") == Some([a, b, c, d])
    ensures SummariserInput([a, b, c, d, e, f, g], "") == None
    ensures SummariserInput([a, b, c], "gpt-5-nano") == None
  {
    assert [a, b, c, d, e, f, g][..4] == [a, b, c, d];
  }
}
