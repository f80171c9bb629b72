/**
 * The file-backed conversation store. The JSON document holds three records keyed by
 * session id: the conversation items, the skills the agent has read and the persisted
 * plan. The store keeps an in-memory copy of its own items, and every mutation reloads
 * the document, changes it and writes it back whole.
 *
 * The file is a value (`SessionFile`); a write replaces it. Reading a missing file or
 * one that does not parse yields three empty records.
 */
module DiskSession {
  import opened Wrappers
  import opened JsValues
  import opened OrderedMaps

  datatype PlanItemStatus = Todo | InProgress | Done | NotNeeded

  datatype PlanItem = PlanItem(id: int, text: string, status: PlanItemStatus)

  datatype PlanState = PlanState(planDescription: string, planItems: seq<PlanItem>, progress: Option<real>)

  /** A partial plan: `None` marks a key the caller left out. */
  datatype PlanPatch = PlanPatch(planDescription: Option<string>, planItems: Option<seq<PlanItem>>, progress: Option<real>)

  /** The plan a session has before anything was stored for it. */
  const DefaultPlan := PlanState("", [], Some(0.0))

  /** The id used when the session id is empty. */
  const DefaultSessionId := "default-session"

  datatype Storage = Storage(sessions: OMap<seq<Value>>, skillsRead: OMap<seq<string>>, plan: OMap<PlanState>)

  /** The session file: missing, unreadable, or a document whose records may each be absent. */
  datatype SessionFile =
    | Absent
    | Unreadable
    | Document(sessions: Option<OMap<seq<Value>>>, skillsRead: Option<OMap<seq<string>>>, plan: Option<OMap<PlanState>>)

  /** The store: its file, the id `getSessionId` reports and its in-memory items. */
  datatype Disk = Disk(file: SessionFile, id: string, items: seq<Value>)

  function EmptyStorage(): Storage {
    Storage(Empty(), Empty(), Empty())
  }

  /** Reading the file: missing or unreadable means empty; a missing record means an empty one. */
  function Load(f: SessionFile): (st: Storage)
    ensures !f.Document? ==> st == EmptyStorage()
    ensures f.Document? && f.sessions.Some? ==> st.sessions == f.sessions.value
    ensures f.Document? && f.sessions.None? ==> st.sessions == Empty()
  {
    match f
    case Document(s, k, p) => Storage(s.GetOr(Empty()), k.GetOr(Empty()), p.GetOr(Empty()))
    case _ => EmptyStorage()
  }

  /** Writing the storage as a document: reading it back gives the same storage. */
  function Save(st: Storage): (f: SessionFile)
    ensures Load(f) == st
  {
    Document(Some(st.sessions), Some(st.skillsRead), Some(st.plan))
  }

  /** The items the file holds for the store's session. */
  function Persisted(d: Disk): Option<seq<Value>> {
    Lookup(Load(d.file).sessions, d.id)
  }

  /** The in-memory items agree with the file: the file holds them, or holds nothing and they are empty. */
  predicate Synced(d: Disk) {
    Persisted(d) == Some(d.items) || (Persisted(d) == None && d.items == [])
  }

  /** The id a store without an explicit id adopts: the first session, else the first plan, else the first skills record. */
  function Candidate(st: Storage): (r: Option<string>)
    ensures |st.sessions.keys| > 0 ==> r == Some(st.sessions.keys[0])
    ensures |st.sessions.keys| == 0 && |st.plan.keys| > 0 ==> r == Some(st.plan.keys[0])
    ensures r.None? <==> |st.sessions.keys| == 0 && |st.plan.keys| == 0 && |st.skillsRead.keys| == 0
  {
    if |st.sessions.keys| > 0 then FirstKey(st.sessions)
    else if |st.plan.keys| > 0 then FirstKey(st.plan)
    else FirstKey(st.skillsRead)
  }

  /** The id the underlying memory store holds after adoption: requested, generated, or adopted from the file. */
  function MemoryId(st: Storage, requested: Option<string>, generated: string): (id: string)
    ensures requested.Some? && requested.value != "" ==> id == requested.value
    ensures requested.None? && Candidate(st).None? ==> id == generated
  {
    var base := requested.GetOr(generated);
    if requested.Some? && requested.value != "" then base
    else
      var c := Candidate(st);
      if c.Some? && c.value != "" then c.value else base
  }

  /** The key initialisation loads and persists items under. */
  function InitKey(memoryId: string): (k: string)
    ensures k != ""
    ensures memoryId != "" ==> k == memoryId
  {
    if memoryId == "" then DefaultSessionId else memoryId
  }

  /**
   * Opening the store as written: items are loaded (or the initial items persisted)
   * under `InitKey`, but the session id the store reports afterwards stays the memory
   * store's id, which is still empty when an empty id was requested and nothing was adopted.
   */
  function Init(f: SessionFile, requested: Option<string>, generated: string, initial: seq<Value>): (d: Disk)
    requires generated != ""
    ensures d.id == MemoryId(Load(f), requested, generated)
    ensures d.items == Lookup(Load(f).sessions, InitKey(d.id)).GetOr(initial)
  {
    InitWithId(f, MemoryId(Load(f), requested, generated), initial)
  }

  /** Opening the store with the fallback id recorded as the store's id. */
  function InitFixed(f: SessionFile, requested: Option<string>, generated: string, initial: seq<Value>): (d: Disk)
    requires generated != ""
    ensures d.id != ""
    ensures d.id == InitKey(MemoryId(Load(f), requested, generated))
    ensures Synced(d)
    ensures requested.Some? && requested.value != "" ==> d.id == requested.value
  {
    var d := InitWithId(f, MemoryId(Load(f), requested, generated), initial);
    d.(id := InitKey(d.id))
  }

  function InitWithId(f: SessionFile, memoryId: string, initial: seq<Value>): (d: Disk)
    ensures d.id == memoryId
    ensures Lookup(Load(d.file).sessions, InitKey(memoryId)) == Some(d.items) || (|d.items| == 0 && Lookup(Load(d.file).sessions, InitKey(memoryId)) == None)
    ensures Lookup(Load(f).sessions, InitKey(memoryId)).Some? ==> d.file == f
  {
    var st := Load(f);
    var key := InitKey(memoryId);
    var stored := Lookup(st.sessions, key);
    if stored.Some? then Disk(f, memoryId, stored.value)
    else if |initial| > 0 then Disk(Save(st.(sessions := Put(st.sessions, key, initial))), memoryId, initial)
    else Disk(f, memoryId, initial)
  }

  /** Appends to memory and to the session's record in the file. */
  function AddItems(d: Disk, xs: seq<Value>): (r: Disk)
    ensures r.id == d.id && r.items == d.items + xs
    ensures Persisted(r) == Some(Persisted(d).GetOr([]) + xs)
    ensures forall k :: k != d.id ==> Lookup(Load(r.file).sessions, k) == Lookup(Load(d.file).sessions, k)
    ensures Load(r.file).skillsRead == Load(d.file).skillsRead && Load(r.file).plan == Load(d.file).plan
  {
    var st := Load(d.file);
    var before := Lookup(st.sessions, d.id).GetOr([]);
    Disk(Save(st.(sessions := Put(st.sessions, d.id, before + xs))), d.id, d.items + xs)
  }

  /**
   * Removes the last in-memory item and returns it; the file's record loses its last
   * item only when the popped item is truthy.
   */
  function PopItem(d: Disk): (r: (Disk, Option<Value>))
    ensures |d.items| == 0 ==> r == (d, None)
    ensures |d.items| > 0 ==> r.1 == Some(d.items[|d.items| - 1]) && r.0.items == d.items[..|d.items| - 1]
    ensures r.0.id == d.id
    ensures |d.items| > 0 && !Truthy(d.items[|d.items| - 1]) ==> r.0.file == d.file
    ensures |d.items| > 0 && Truthy(d.items[|d.items| - 1]) && Persisted(d).Some? && |Persisted(d).value| > 0 ==>
      Persisted(r.0) == Some(Persisted(d).value[..|Persisted(d).value| - 1])
  {
    if |d.items| == 0 then (d, None)
    else
      var item := d.items[|d.items| - 1];
      var rest := d.items[..|d.items| - 1];
      if !Truthy(item) then (d.(items := rest), Some(item))
      else
        var st := Load(d.file);
        var stored := Lookup(st.sessions, d.id);
        var file' :=
          if stored.Some? then
            var xs := stored.value;
            Save(st.(sessions := Put(st.sessions, d.id, if |xs| > 0 then xs[..|xs| - 1] else xs)))
          else Save(st);
        (Disk(file', d.id, rest), Some(item))
  }

  /** Empties memory and removes the session's items, skills and plan from the file. */
  function ClearSession(d: Disk): (r: Disk)
    ensures r.id == d.id && r.items == []
    ensures Persisted(r) == None
    ensures Lookup(Load(r.file).skillsRead, d.id) == None && Lookup(Load(r.file).plan, d.id) == None
    ensures forall k :: k != d.id ==> Lookup(Load(r.file).sessions, k) == Lookup(Load(d.file).sessions, k)
    ensures forall k :: k != d.id ==> Lookup(Load(r.file).plan, k) == Lookup(Load(d.file).plan, k)
  {
    var st := Load(d.file);
    Disk(Save(Storage(Remove(st.sessions, d.id), Remove(st.skillsRead, d.id), Remove(st.plan, d.id))), d.id, [])
  }

  /** Replaces the session's items in memory and in the file, leaving its skills and plan alone. */
  function ReplaceItems(d: Disk, xs: seq<Value>): (r: Disk)
    ensures r.id == d.id && r.items == xs
    ensures Persisted(r) == Some(xs)
    ensures Load(r.file).skillsRead == Load(d.file).skillsRead && Load(r.file).plan == Load(d.file).plan
  {
    var st := Load(d.file);
    Disk(Save(st.(sessions := Put(st.sessions, d.id, xs))), d.id, xs)
  }

  function GetSkillsRead(d: Disk): (r: seq<string>)
    ensures !d.file.Document? || d.file.skillsRead.None? ==> r == []
  {
    Lookup(Load(d.file).skillsRead, d.id).GetOr([])
  }

  /** Records a skill for the session unless it is already recorded. */
  function AddSkillRead(d: Disk, skill: string): (r: Disk)
    ensures r.id == d.id && r.items == d.items
    ensures skill in GetSkillsRead(r)
    ensures skill in GetSkillsRead(d) ==> GetSkillsRead(r) == GetSkillsRead(d)
    ensures skill !in GetSkillsRead(d) ==> GetSkillsRead(r) == GetSkillsRead(d) + [skill]
    ensures Load(r.file).sessions == Load(d.file).sessions && Load(r.file).plan == Load(d.file).plan
  {
    var st := Load(d.file);
    var arr := Lookup(st.skillsRead, d.id).GetOr([]);
    var arr' := if skill in arr then arr else arr + [skill];
    d.(file := Save(st.(skillsRead := Put(st.skillsRead, d.id, arr'))))
  }

  function GetPlanState(d: Disk): (r: Option<PlanState>)
    ensures !d.file.Document? || d.file.plan.None? ==> r.None?
  {
    Lookup(Load(d.file).plan, d.id)
  }

  /** Merges a partial plan over the stored one (or the default plan); only an array replaces the items. */
  function MergePlan(existing: PlanState, patch: PlanPatch): (p: PlanState)
    ensures patch.planDescription.Some? ==> p.planDescription == patch.planDescription.value
    ensures patch.planDescription.None? ==> p.planDescription == existing.planDescription
    ensures patch.planItems.Some? ==> p.planItems == patch.planItems.value
    ensures patch.planItems.None? ==> p.planItems == existing.planItems
    ensures p.progress == if patch.progress.Some? then patch.progress else existing.progress
  {
    PlanState(patch.planDescription.GetOr(existing.planDescription),
              patch.planItems.GetOr(existing.planItems),
              OrElse(patch.progress, existing.progress))
  }

  function SetPlanState(d: Disk, patch: PlanPatch): (r: Disk)
    ensures r.id == d.id && r.items == d.items
    ensures GetPlanState(r) == Some(MergePlan(GetPlanState(d).GetOr(DefaultPlan), patch))
    ensures Load(r.file).sessions == Load(d.file).sessions && Load(r.file).skillsRead == Load(d.file).skillsRead
  {
    var st := Load(d.file);
    var existing := Lookup(st.plan, d.id).GetOr(DefaultPlan);
    d.(file := Save(st.(plan := Put(st.plan, d.id, MergePlan(existing, patch)))))
  }

  // ---------------------------------------------------------------------------
  // Properties across operations.

  /** Recording the same skill twice writes the same record as recording it once. */
  lemma AddSkillReadIdempotent(d: Disk, skill: string)
    ensures GetSkillsRead(AddSkillRead(AddSkillRead(d, skill), skill)) == GetSkillsRead(AddSkillRead(d, skill))
  {
  }

  /** The skills record never holds a skill twice when built by `AddSkillRead`. */
  lemma AddSkillReadKeepsDistinct(d: Disk, skill: string)
    requires Distinct(GetSkillsRead(d))
    ensures Distinct(GetSkillsRead(AddSkillRead(d, skill)))
  {
    var before := GetSkillsRead(d);
    if skill !in before {
      var after := before + [skill];
      forall i, j | 0 <= i < j < |after| ensures after[i] != after[j] {
        if j == |before| {
          assert after[i] == before[i];
        } else {
          assert after[i] == before[i] && after[j] == before[j];
        }
      }
    }
  }

  /** A full plan stored and read back, by this store or by a fresh one opened on the same file, is unchanged. */
  lemma {:induction false} PlanRoundTrip(d: Disk, p: PlanState, generated: string)
    requires generated != "" && d.id != ""
    ensures var r := SetPlanState(d, PlanPatch(Some(p.planDescription), Some(p.planItems), p.progress));
      && (p.progress.Some? ==> GetPlanState(r) == Some(p))
      && GetPlanState(InitFixed(r.file, Some(d.id), generated, [])) == GetPlanState(r)
  {
    var r := SetPlanState(d, PlanPatch(Some(p.planDescription), Some(p.planItems), p.progress));
    var reopened := InitFixed(r.file, Some(d.id), generated, []);
    assert reopened.id == d.id;
    var st := Load(r.file);
    if Lookup(st.sessions, d.id).None? {
      assert reopened.file == r.file;
    }
  }

  /**
   * A store opened without an id on a missing file keeps its generated id; a plan it
   * stores is found by a second store opened without an id, which adopts the first
   * plan key.
   */
  lemma PlanSurvivesReopenWithoutId(p: PlanState, g1: string, g2: string)
    requires g1 != "" && g2 != "" && p.progress.Some?
    ensures var d := Init(Absent, None, g1, []);
      var r := SetPlanState(d, PlanPatch(Some(p.planDescription), Some(p.planItems), p.progress));
      GetPlanState(Init(r.file, None, g2, [])) == Some(p)
  {
    var d := Init(Absent, None, g1, []);
    assert d.id == g1;
    var r := SetPlanState(d, PlanPatch(Some(p.planDescription), Some(p.planItems), p.progress));
    var st := Load(r.file);
    assert st.sessions.keys == [] && st.plan.keys == [g1];
    assert Candidate(st) == Some(g1);
  }

  /** Appending keeps the in-memory items and the file in agreement. */
  lemma AddItemsKeepsSynced(d: Disk, xs: seq<Value>)
    requires Synced(d)
    ensures Synced(AddItems(d, xs))
  {
  }

  /** Clearing keeps the in-memory items and the file in agreement. */
  lemma ClearKeepsSynced(d: Disk)
    ensures Synced(ClearSession(d))
  {
  }

  /** Popping a truthy item keeps the in-memory items and the file in agreement. */
  lemma PopTruthyKeepsSynced(d: Disk)
    requires Synced(d) && |d.items| > 0 && Truthy(d.items[|d.items| - 1])
    ensures Synced(PopItem(d).0)
  {
  }

  /** Popping a falsy item leaves it in the file, so memory and file disagree afterwards. */
  lemma PopFalsyDesyncs(d: Disk)
    requires Synced(d) && |d.items| > 0 && !Truthy(d.items[|d.items| - 1])
    ensures !Synced(PopItem(d).0)
  {
    var r := PopItem(d).0;
    assert Persisted(r) == Some(d.items);
    assert |r.items| < |d.items|;
  }

  /** A store in agreement with its file is restored exactly by a fresh store opened on that file with its id. */
  lemma {:induction false} ReopenRestoresItems(d: Disk, generated: string)
    requires Synced(d) && d.id != "" && generated != ""
    ensures InitFixed(d.file, Some(d.id), generated, []).items == d.items
  {
    assert MemoryId(Load(d.file), Some(d.id), generated) == d.id;
  }

  /**
   * Opening with an empty id on an empty file, adding one item and another, then opening
   * again with an empty id: the second store sees only the first item, because the
   * initial item went under the fallback id and the later one under the empty id.
   */
  lemma EmptyIdLosesItems(a: Value, b: Value)
    ensures var d := AddItems(Init(Absent, Some(""), "generated", [a]), [b]);
      && d.items == [a, b]
      && Init(d.file, Some(""), "generated", []).items == [a]
  {
    var d0 := Init(Absent, Some(""), "generated", [a]);
    EmptyIdFirstStore(a);
    EmptyIdSecondStore(d0, a, b);
    var d := AddItems(d0, [b]);
    assert MemoryId(Load(d.file), Some(""), "generated") == DefaultSessionId;
  }

  /** Opening with an empty id stores the initial item under the fallback id but reports the empty id. */
  lemma EmptyIdFirstStore(a: Value)
    ensures var d0 := Init(Absent, Some(""), "generated", [a]);
      d0.id == "" && d0.items == [a] && Load(d0.file).sessions.keys == [DefaultSessionId]
      && Lookup(Load(d0.file).sessions, DefaultSessionId) == Some([a])
  {
    var d0 := Init(Absent, Some(""), "generated", [a]);
    assert d0.id == "";
    assert Lookup(Load(d0.file).sessions, DefaultSessionId) == Some([a]);
  }

  /** The next store then goes under the empty id, as a second session after the first. */
  lemma EmptyIdSecondStore(d0: Disk, a: Value, b: Value)
    requires d0.id == "" && d0.items == [a] && Load(d0.file).sessions.keys == [DefaultSessionId]
    requires Lookup(Load(d0.file).sessions, DefaultSessionId) == Some([a])
    ensures var d := AddItems(d0, [b]);
      d.items == [a, b] && Load(d.file).sessions.keys == [DefaultSessionId, ""]
      && Lookup(Load(d.file).sessions, DefaultSessionId) == Some([a])
  {
  }

  /** With the fallback id recorded, the same sequence restores both items. */
  lemma EmptyIdKeepsItemsFixed(a: Value, b: Value)
    ensures var d := AddItems(InitFixed(Absent, Some(""), "generated", [a]), [b]);
      && d.items == [a, b]
      && InitFixed(d.file, Some(""), "generated", []).items == [a, b]
  {
    var d0 := InitFixed(Absent, Some(""), "generated", [a]);
    assert d0.id == DefaultSessionId;
    var d := AddItems(d0, [b]);
    AddItemsKeepsSynced(d0, [b]);
    assert Load(d.file).sessions.keys == [DefaultSessionId];
    assert MemoryId(Load(d.file), Some(""), "generated") == DefaultSessionId;
  }
}
