/**
 * The compaction-aware session that wraps the conversation store (an in-memory list or
 * the disk store). It stamps each appended item with the time it was added, hides that
 * stamp from readers, and after every append decides whether to rewrite the history to
 * `[notice, last 3]`.
 *
 * The clock, the compaction model name (a process-wide setting) and the summariser are
 * parameters or fields.
 */
module MemoryCompaction {
  import opened Wrappers
  import opened JsValues
  import opened Arrays
  import opened TokenEstimate
  import opened ContextLimits
  import opened Timestamps
  import opened Compaction
  import DiskSession

  /** The wrapped store: the SDK's in-memory session, or the disk store. */
  datatype Underlying = InMemory(id: string, items: seq<Value>) | OnDisk(disk: DiskSession.Disk)

  datatype Session = Session(
    underlying: Underlying,
    triggerTokens: Option<int>,
    addedSinceCompaction: nat,
    skillsLocal: seq<string>,
    compactionModel: string)

  const DefaultTriggerFraction: real := 0.5

  function UnderlyingItems(u: Underlying): seq<Value> {
    match u
    case InMemory(_, items) => items
    case OnDisk(d) => d.items
  }

  function UnderlyingAdd(u: Underlying, xs: seq<Value>): (r: Underlying)
    ensures UnderlyingItems(r) == UnderlyingItems(u) + xs
  {
    match u
    case InMemory(id, items) => InMemory(id, items + xs)
    case OnDisk(d) => OnDisk(DiskSession.AddItems(d, xs))
  }

  function UnderlyingClear(u: Underlying): (r: Underlying)
    ensures UnderlyingItems(r) == []
  {
    match u
    case InMemory(id, _) => InMemory(id, [])
    case OnDisk(d) => OnDisk(DiskSession.ClearSession(d))
  }

  /** The session with a trigger only when a compaction model is configured. */
  function Create(underlying: Underlying, triggerFraction: Option<real>, compactionModel: string): (s: Session)
    ensures s.triggerTokens.Some? <==> compactionModel != ""
    ensures s.triggerTokens.Some? ==> s.triggerTokens.value == TriggerTokens(Some(compactionModel), triggerFraction.GetOr(DefaultTriggerFraction))
    ensures s.addedSinceCompaction == 0 && s.skillsLocal == [] && s.underlying == underlying
  {
    var trigger := if compactionModel != "" then Some(TriggerTokens(Some(compactionModel), triggerFraction.GetOr(DefaultTriggerFraction))) else None;
    Session(underlying, trigger, 0, [], compactionModel)
  }

  function GetSessionId(s: Session): string {
    match s.underlying
    case InMemory(id, _) => id
    case OnDisk(d) => d.id
  }

  // ---------------------------------------------------------------------------
  // Stamping and sanitising.

  /** The copy of an item carrying `providerData.harper.addedAtMs = now`, everything else kept. */
  function Stamp(it: Value, now: int): (r: Value)
    ensures r.Obj?
    ensures FiniteStamp(r) == Some(now as real)
    ensures forall k :: k != "providerData" ==> Get(r, k) == Get(it, k)
    ensures forall k :: k != "harper" ==> Get(Get(r, "providerData"), k) == Get(Get(it, "providerData"), k)
    ensures forall k :: k != "addedAtMs" ==> Get(Get(Get(r, "providerData"), "harper"), k) == Get(Get(Get(it, "providerData"), "harper"), k)
  {
    var pd := Spread(Get(it, "providerData"));
    var ours := Spread(Get(Obj(pd), "harper"))["addedAtMs" := Num(Finite(now as real))];
    Obj(Spread(it)["providerData" := Obj(pd["harper" := Obj(ours)])])
  }

  /** The map without key `k`. */
  function DropKey(m: map<string, Value>, k: string): (r: map<string, Value>)
    ensures k !in r
    ensures forall k' :: k' != k ==> (k' in r <==> k' in m)
    ensures forall k' :: k' in r ==> r[k'] == m[k']
  {
    m - {k}
  }

  /**
   * The copy of an item without the session's private metadata: no top-level `harper`
   * key, no `harper` key in an object `providerData`, and no `providerData` at all
   * when removing the key leaves it empty. Other values pass through unchanged.
   */
  function Sanitize(it: Value): (r: Value)
    ensures !it.Obj? ==> r == it
    ensures it.Obj? ==> r.Obj? && "harper" !in r.fields
  {
    if !it.Obj? then it
    else
      var out := DropKey(it.fields, "harper");
      if "providerData" in out && out["providerData"].Obj? then
        var pd := DropKey(out["providerData"].fields, "harper");
        if pd == map[] then Obj(DropKey(out, "providerData")) else Obj(out["providerData" := Obj(pd)])
      else Obj(out)
  }

  /** Sanitising leaves every other top-level field as it was. */
  lemma SanitizeKeepsOtherFields(it: Value, k: string)
    requires k != "harper" && k != "providerData"
    ensures Get(Sanitize(it), k) == Get(it, k)
  {
  }

  /** Sanitising removes `harper` inside `providerData`, keeps its other keys, and drops it when nothing else is left. */
  lemma SanitizeProviderData(it: Value)
    requires it.Obj?
    ensures Get(Get(Sanitize(it), "providerData"), "harper") == Undefined
    ensures !Get(it, "providerData").Obj? ==> Get(Sanitize(it), "providerData") == Get(it, "providerData")
    ensures Get(it, "providerData").Obj? ==>
      forall k :: k != "harper" ==> Get(Get(Sanitize(it), "providerData"), k) == Get(Get(it, "providerData"), k)
    ensures Get(it, "providerData").Obj? && Get(it, "providerData").fields.Keys <= {"harper"} ==>
      "providerData" !in Sanitize(it).fields
  {
    var pdv := Get(it, "providerData");
    if pdv.Obj? {
      var pd := DropKey(pdv.fields, "harper");
      if pdv.fields.Keys <= {"harper"} {
        assert pd.Keys == {};
      }
      if pd == map[] {
        forall k | k != "harper" ensures Get(pdv, k) == Undefined {
          assert k !in pd;
        }
      }
    }
  }

  lemma DropAbsentKey(m: map<string, Value>, k: string)
    requires k !in m
    ensures DropKey(m, k) == m
  {
    assert DropKey(m, k).Keys == m.Keys;
  }

  /** Sanitising twice is sanitising once. */
  lemma SanitizeIdempotent(it: Value)
    ensures Sanitize(Sanitize(it)) == Sanitize(it)
  {
    if it.Obj? {
      var r := Sanitize(it);
      DropAbsentKey(r.fields, "harper");
      var out := DropKey(it.fields, "harper");
      if "providerData" in out && out["providerData"].Obj? {
        var pd := DropKey(out["providerData"].fields, "harper");
        if pd != map[] {
          assert r.fields["providerData"] == Obj(pd);
          DropAbsentKey(pd, "harper");
          assert r.fields["providerData" := Obj(pd)] == r.fields;
        }
      }
    }
  }

  /** A sanitised item carries no readable stamp. */
  lemma SanitizedHasNoStamp(it: Value)
    ensures FiniteStamp(Sanitize(it)) == None
  {
  }

  /** Stamping an item without private metadata and sanitising the result gives the item back. */
  lemma SanitizeUndoesStamp(it: Value, now: int)
    requires it.Obj? && "harper" !in it.fields
    requires "providerData" in it.fields ==>
      it.fields["providerData"].Obj? && "harper" !in it.fields["providerData"].fields && |it.fields["providerData"].fields.Keys| > 0
    ensures Sanitize(Stamp(it, now)) == it
  {
    var st := Stamp(it, now);
    var r := Sanitize(st);
    var out := DropKey(st.fields, "harper");
    DropAbsentKey(it.fields, "harper");
    assert out == st.fields;
    var spd := out["providerData"].fields;
    var pd := DropKey(spd, "harper");
    if "providerData" in it.fields {
      var orig := it.fields["providerData"].fields;
      assert pd.Keys == orig.Keys;
      assert pd == orig;
      assert r.fields.Keys == it.fields.Keys;
    } else {
      assert spd.Keys == {"harper"};
      assert pd == map[];
      assert r.fields.Keys == it.fields.Keys;
    }
    assert r.fields == it.fields;
  }

  // ---------------------------------------------------------------------------
  // Session operations.

  /** `getItems`: the stored items, sanitised. */
  function GetItems(s: Session): (r: seq<Value>)
    ensures |r| == |UnderlyingItems(s.underlying)|
    ensures forall i :: 0 <= i < |r| ==> r[i] == Sanitize(UnderlyingItems(s.underlying)[i])
  {
    var items := UnderlyingItems(s.underlying);
    seq(|items|, i requires 0 <= i < |items| => Sanitize(items[i]))
  }

  /** `getLatestAddedTimestamp`: the stamp of the last stored item, read without sanitising. */
  function LatestAddedTimestamp(s: Session): (r: Option<real>)
    ensures |UnderlyingItems(s.underlying)| == 0 ==> r == None
    ensures |UnderlyingItems(s.underlying)| > 0 ==> r == FiniteStamp(UnderlyingItems(s.underlying)[|UnderlyingItems(s.underlying)| - 1])
  {
    LastAddedTimestamp(Arr(UnderlyingItems(s.underlying)))
  }

  /** Whether `runCompaction` arguments force compaction: `force`, `always`, or `trigger === 'force'`. */
  predicate IsForced(args: Value)
    ensures IsForced(args) ==> args.Obj?
    ensures args.Obj? && "force" in args.fields && Truthy(args.fields["force"]) ==> IsForced(args)
  {
    Truthy(Get(args, "force")) || Truthy(Get(args, "always")) || Get(args, "trigger") == Str("force")
  }

  /** The arguments the automatic call after each append passes. */
  const AutoArgs: Value := Obj(map["reason" := Str("post-add-check"), "mode" := Str("auto")])

  /** The gate: more than four items, and, unless forced, an estimate at or above a positive trigger. */
  predicate Compacts(s: Session, args: Value)
    ensures Compacts(s, args) ==> |GetItems(s)| > 4
    ensures |GetItems(s)| > 4 && IsForced(args) ==> Compacts(s, args)
    ensures |GetItems(s)| > 4 && (s.triggerTokens.None? || s.triggerTokens.value <= 0) ==> Compacts(s, args)
  {
    var items := GetItems(s);
    && |items| > 4
    && (IsForced(args) || s.triggerTokens.None? || s.triggerTokens.value <= 0 || EstimateTokensLocal(items) >= s.triggerTokens.value)
  }

  /** `runCompaction`: rewrites the store to the compacted history when the gate opens; the result is always null. */
  function RunCompaction(s: Session, args: Value, summarise: seq<Value> -> Option<string>): (r: (Session, Value))
    ensures r.1 == Null
    ensures !Compacts(s, args) ==> r.0 == s
    ensures Compacts(s, args) ==>
      var art := CompactConversation(GetItems(s), s.compactionModel, summarise);
      && UnderlyingItems(r.0.underlying) == FilterTruthy(art.itemsToAdd)
      && r.0.addedSinceCompaction == 0
  {
    var items := GetItems(s);
    if |items| <= 1 then (s, Null)
    else if !IsForced(args) && s.triggerTokens.Some? && s.triggerTokens.value > 0 && EstimateTokensLocal(items) < s.triggerTokens.value then (s, Null)
    else if |items| <= 4 then (s, Null)
    else
      var art := CompactConversation(items, s.compactionModel, summarise);
      (s.(addedSinceCompaction := 0, underlying := UnderlyingAdd(UnderlyingClear(s.underlying), FilterTruthy(art.itemsToAdd))), Null)
  }

  /** Replacing the stored history outright: the disk store keeps the session's skills and plan. */
  function UnderlyingReplace(u: Underlying, xs: seq<Value>): (r: Underlying)
    ensures UnderlyingItems(r) == xs
    ensures u.OnDisk? ==> r.OnDisk? && DiskSession.GetPlanState(r.disk) == DiskSession.GetPlanState(u.disk)
    ensures u.OnDisk? ==> r.OnDisk? && DiskSession.GetSkillsRead(r.disk) == DiskSession.GetSkillsRead(u.disk)
  {
    match u
    case InMemory(id, _) => InMemory(id, xs)
    case OnDisk(d) => OnDisk(DiskSession.ReplaceItems(d, xs))
  }

  /** `runCompaction` rewriting the history in place instead of clearing the whole session. */
  function RunCompactionKeepingPlan(s: Session, args: Value, summarise: seq<Value> -> Option<string>): (r: (Session, Value))
    ensures r.1 == Null
    ensures GetItems(r.0) == GetItems(RunCompaction(s, args, summarise).0)
    ensures s.underlying.OnDisk? ==> r.0.underlying.OnDisk? && DiskSession.GetPlanState(r.0.underlying.disk) == DiskSession.GetPlanState(s.underlying.disk)
    ensures s.underlying.OnDisk? ==> DiskSession.GetSkillsRead(r.0.underlying.disk) == DiskSession.GetSkillsRead(s.underlying.disk)
  {
    if !Compacts(s, args) then (s, Null)
    else
      var art := CompactConversation(GetItems(s), s.compactionModel, summarise);
      (s.(addedSinceCompaction := 0, underlying := UnderlyingReplace(s.underlying, FilterTruthy(art.itemsToAdd))), Null)
  }

  /** `addItems`: stamps every item with the same time, appends them, then runs the automatic compaction check. */
  function AddItems(s: Session, xs: seq<Value>, now: int, summarise: seq<Value> -> Option<string>): (r: Session)
    ensures var appended := StampAll(s, xs, now);
      && UnderlyingItems(appended.underlying) == UnderlyingItems(s.underlying) + seq(|xs|, i requires 0 <= i < |xs| => Stamp(xs[i], now))
      && r == RunCompaction(appended, AutoArgs, summarise).0
  {
    RunCompaction(StampAll(s, xs, now), AutoArgs, summarise).0
  }

  /** The store after the stamped append and before the compaction check. */
  function StampAll(s: Session, xs: seq<Value>, now: int): (r: Session)
    ensures r.addedSinceCompaction == s.addedSinceCompaction + |xs|
  {
    var stamped := seq(|xs|, i requires 0 <= i < |xs| => Stamp(xs[i], now));
    s.(underlying := UnderlyingAdd(s.underlying, stamped), addedSinceCompaction := s.addedSinceCompaction + |xs|)
  }

  function PopItem(s: Session): (r: (Session, Option<Value>))
    ensures |UnderlyingItems(s.underlying)| > 0 ==>
      r.1 == Some(UnderlyingItems(s.underlying)[|UnderlyingItems(s.underlying)| - 1])
      && UnderlyingItems(r.0.underlying) == UnderlyingItems(s.underlying)[..|UnderlyingItems(s.underlying)| - 1]
    ensures |UnderlyingItems(s.underlying)| == 0 ==> r.1 == None
  {
    match s.underlying
    case InMemory(id, items) =>
      if |items| == 0 then (s, None) else (s.(underlying := InMemory(id, items[..|items| - 1])), Some(items[|items| - 1]))
    case OnDisk(d) =>
      var (d', item) := DiskSession.PopItem(d);
      (s.(underlying := OnDisk(d')), item)
  }

  function ClearSession(s: Session): (r: Session)
    ensures GetItems(r) == [] && r.addedSinceCompaction == 0
  {
    s.(addedSinceCompaction := 0, underlying := UnderlyingClear(s.underlying))
  }

  /** `addSkillRead`: the disk store records it; otherwise the local set does. */
  function AddSkillRead(s: Session, skill: string): (r: Session)
    ensures skill in GetSkillsRead(r)
  {
    match s.underlying
    case OnDisk(d) => s.(underlying := OnDisk(DiskSession.AddSkillRead(d, skill)))
    case InMemory(_, _) =>
      DedupKeeps(GetSkillsRead(s) + [skill], skill);
      s.(skillsLocal := if skill in s.skillsLocal then s.skillsLocal else s.skillsLocal + [skill])
  }

  /** `getSkillsRead`: the store's skills then the local ones, each once, in first-seen order. */
  function GetSkillsRead(s: Session): (r: seq<string>)
    ensures forall x :: x in r <==> x in BaseSkills(s) || x in s.skillsLocal
    ensures NoDuplicates(r)
  {
    Dedup(BaseSkills(s) + s.skillsLocal)
  }

  function BaseSkills(s: Session): seq<string> {
    match s.underlying
    case OnDisk(d) => DiskSession.GetSkillsRead(d)
    case InMemory(_, _) => []
  }

  predicate NoDuplicates(xs: seq<string>) {
    forall i, j :: 0 <= i < j < |xs| ==> xs[i] != xs[j]
  }

  /** `Array.from(new Set(xs))`: first occurrences, in order. */
  function Dedup(xs: seq<string>): (r: seq<string>)
    ensures forall x :: x in r <==> x in xs
    ensures NoDuplicates(r)
    ensures NoDuplicates(xs) ==> r == xs
  {
    if |xs| == 0 then []
    else
      var rest := Dedup(xs[..|xs| - 1]);
      var last := xs[|xs| - 1];
      assert forall x :: x in xs <==> x in xs[..|xs| - 1] || x == last by {
        assert xs == xs[..|xs| - 1] + [last];
      }
      if last in rest then rest else rest + [last]
  }

  lemma DedupKeeps(xs: seq<string>, x: string)
    requires x in xs
    ensures x in Dedup(xs)
  {
  }

  // ---------------------------------------------------------------------------
  // Properties across operations.

  /** Readers never see the session's private metadata. */
  lemma GetItemsHidesMetadata(s: Session, i: nat)
    requires i < |GetItems(s)| && UnderlyingItems(s.underlying)[i].Obj?
    ensures Get(GetItems(s)[i], "harper") == Undefined
    ensures Get(Get(GetItems(s)[i], "providerData"), "harper") == Undefined
  {
  }

  /** A short history is never rewritten, forced or not. */
  lemma SmallHistoryUnchanged(s: Session, args: Value, summarise: seq<Value> -> Option<string>)
    requires |UnderlyingItems(s.underlying)| <= 4
    ensures RunCompaction(s, args, summarise).0 == s
  {
  }

  /** Below a positive trigger, only a forced call compacts. */
  lemma BelowTriggerUnchanged(s: Session, args: Value, summarise: seq<Value> -> Option<string>)
    requires s.triggerTokens.Some? && s.triggerTokens.value > 0 && EstimateTokensLocal(GetItems(s)) < s.triggerTokens.value
    requires !IsForced(args)
    ensures RunCompaction(s, args, summarise).0 == s
  {
  }

  /** The notice item has no private metadata to remove. */
  lemma SanitizeSystemMessage(text: string)
    ensures Sanitize(SystemMessage(text)) == SystemMessage(text)
  {
    DropAbsentKey(SystemMessage(text).fields, "harper");
  }

  /** The stored items after a rewrite, as readers see them, are the rewritten items sanitised once more. */
  lemma CompactedItems(s: Session, args: Value, summarise: seq<Value> -> Option<string>)
    requires Compacts(s, args)
    ensures var art := CompactConversation(GetItems(s), s.compactionModel, summarise);
      GetItems(RunCompaction(s, args, summarise).0) == seq(|FilterTruthy(art.itemsToAdd)|, i requires 0 <= i < |FilterTruthy(art.itemsToAdd)| => Sanitize(FilterTruthy(art.itemsToAdd)[i]))
  {
    var art := CompactConversation(GetItems(s), s.compactionModel, summarise);
    var kept := FilterTruthy(art.itemsToAdd);
    var u := RunCompaction(s, args, summarise).0.underlying;
    assert UnderlyingItems(u) == kept;
  }

  const ForceArgs: Value := Obj(map["force" := Bool(true)])

  /** Reading sanitises, so every item read is truthy when every stored item is. */
  lemma ReadItemsTruthy(s: Session)
    requires forall i :: 0 <= i < |UnderlyingItems(s.underlying)| ==> Truthy(UnderlyingItems(s.underlying)[i])
    ensures forall i :: 0 <= i < |GetItems(s)| ==> Truthy(GetItems(s)[i])
  {
    var items := GetItems(s);
    var u := UnderlyingItems(s.underlying);
    forall i | 0 <= i < |items| ensures Truthy(items[i]) {
      assert items[i] == Sanitize(u[i]);
    }
  }

  /** Sanitising the four rewritten items again changes none of them. */
  lemma ResanitizedShape(notice: string, a: Value, b: Value, c: Value)
    ensures var added := [SystemMessage(notice), Sanitize(a), Sanitize(b), Sanitize(c)];
      seq(|added|, i requires 0 <= i < |added| => Sanitize(added[i])) == added
  {
    var added := [SystemMessage(notice), Sanitize(a), Sanitize(b), Sanitize(c)];
    var again := seq(|added|, i requires 0 <= i < |added| => Sanitize(added[i]));
    SanitizeSystemMessage(notice);
    SanitizeIdempotent(a);
    SanitizeIdempotent(b);
    SanitizeIdempotent(c);
    assert again[0] == added[0] && again[1] == added[1] && again[2] == added[2] && again[3] == added[3];
  }

  /**
   * Forced compaction of more than four truthy items leaves, as readers see it, exactly
   * the notice followed by the last three items.
   */
  lemma ForcedCompactionShape(s: Session, summarise: seq<Value> -> Option<string>)
    requires |UnderlyingItems(s.underlying)| > 4
    requires forall i :: 0 <= i < |UnderlyingItems(s.underlying)| ==> Truthy(UnderlyingItems(s.underlying)[i])
    ensures var items := GetItems(s);
      var n := |items|;
      var art := CompactConversation(items, s.compactionModel, summarise);
      GetItems(RunCompaction(s, ForceArgs, summarise).0)
        == [SystemMessage(art.noticeContent), items[n - 3], items[n - 2], items[n - 1]]
  {
    var items := GetItems(s);
    var n := |items|;
    var u := UnderlyingItems(s.underlying);
    ReadItemsTruthy(s);
    assert IsForced(ForceArgs);
    assert Compacts(s, ForceArgs);
    var art := CompactConversation(items, s.compactionModel, summarise);
    CompactedShape(items, s.compactionModel, summarise);
    var added := art.itemsToAdd;
    assert FilterTruthy(added) == added;
    CompactedItems(s, ForceArgs, summarise);
    assert items[n - 3] == Sanitize(u[n - 3]) && items[n - 2] == Sanitize(u[n - 2]) && items[n - 1] == Sanitize(u[n - 1]);
    ResanitizedShape(art.noticeContent, u[n - 3], u[n - 2], u[n - 1]);
  }

  /** The last item of a rewritten history is the notice or a recent item, so it carries no stamp when the recent items carry none. */
  lemma LastCompactedItem(items: seq<Value>, compactionModel: string, summarise: seq<Value> -> Option<string>)
    requires forall x :: x in items ==> FiniteStamp(x) == None
    ensures var kept := FilterTruthy(CompactConversation(items, compactionModel, summarise).itemsToAdd);
      |kept| > 0 && FiniteStamp(kept[|kept| - 1]) == None
  {
    var art := CompactConversation(items, compactionModel, summarise);
    var rest := FilterTruthy(RecentItems(items));
    assert art.itemsToAdd == [art.itemsToAdd[0]] + rest;
    assert forall i :: 0 <= i < |art.itemsToAdd| ==> Truthy(art.itemsToAdd[i]);
    assert FilterTruthy(art.itemsToAdd) == art.itemsToAdd;
    if |rest| > 0 {
      var last := rest[|rest| - 1];
      assert last in RecentItems(items);
      assert last in items;
    }
  }

  /** After a rewrite the history carries no stamps, so the latest-added time reads as null. */
  lemma CompactionClearsTimestamp(s: Session, args: Value, summarise: seq<Value> -> Option<string>)
    requires Compacts(s, args)
    ensures LatestAddedTimestamp(RunCompaction(s, args, summarise).0) == None
  {
    ReadItemsUnstamped(s);
    LastCompactedItem(GetItems(s), s.compactionModel, summarise);
  }

  /** Reading sanitises, so no item read carries a stamp. */
  lemma ReadItemsUnstamped(s: Session)
    ensures forall x :: x in GetItems(s) ==> FiniteStamp(x) == None
  {
    var items := GetItems(s);
    forall x | x in items ensures FiniteStamp(x) == None {
      var i :| 0 <= i < |items| && items[i] == x;
      SanitizedHasNoStamp(UnderlyingItems(s.underlying)[i]);
    }
  }

  /** An append that does not trigger a rewrite makes the append time the latest-added time. */
  lemma AppendSetsTimestamp(s: Session, xs: seq<Value>, now: int, summarise: seq<Value> -> Option<string>)
    requires |xs| > 0 && |UnderlyingItems(s.underlying)| + |xs| <= 4
    ensures LatestAddedTimestamp(AddItems(s, xs, now, summarise)) == Some(now as real)
  {
    var appended := StampAll(s, xs, now);
    var all := UnderlyingItems(appended.underlying);
    assert all[|all| - 1] == Stamp(xs[|xs| - 1], now);
  }

  /** Without a compaction model there is no trigger, so the automatic check after an append rewrites any history longer than four items. */
  lemma NoModelCompactsEveryLongHistory(s: Session, xs: seq<Value>, now: int, summarise: seq<Value> -> Option<string>)
    requires s.triggerTokens.None?
    requires |UnderlyingItems(s.underlying)| + |xs| > 4
    ensures |GetItems(AddItems(s, xs, now, summarise))| <= 4
  {
    var appended := StampAll(s, xs, now);
    assert Compacts(appended, AutoArgs);
  }

  /** Compaction over the disk store goes through its clear operation, which deletes the session's persisted plan. */
  lemma CompactionOnDiskDropsPlan(s: Session, args: Value, summarise: seq<Value> -> Option<string>)
    requires s.underlying.OnDisk? && Compacts(s, args)
    ensures DiskSession.GetPlanState(RunCompaction(s, args, summarise).0.underlying.disk) == None
  {
  }
}
