/**
 * The plan panel's state: the goal, the items, and the progress percentage computed when
 * the items are replaced. Only an item's `completed` flag is read here.
 */
module PlanContext {

  datatype PlanView = PlanView(goal: string, items: seq<bool>, progress: int)

  function CountCompleted(items: seq<bool>): (r: nat)
    ensures r <= |items|
    decreases |items|
  {
    if |items| == 0 then 0 else (if items[0] then 1 else 0) + CountCompleted(items[1..])
  }

  /**
   * `Math.round(completed / total * 100)`, or 0 for no items: the nearest whole percentage,
   * halves rounded up, written in integers as the floor of (200·completed + total) / (2·total).
   */
  function Progress(items: seq<bool>): (r: int)
    ensures |items| == 0 ==> r == 0
    ensures |items| > 0 ==> 2 * |items| * r <= 200 * CountCompleted(items) + |items| < 2 * |items| * r + 2 * |items|
  {
    if |items| == 0 then 0
    else RoundedPercent(CountCompleted(items), |items|)
  }

  function RoundedPercent(completed: nat, total: nat): (r: int)
    requires total > 0
    ensures 2 * total * r <= 200 * completed + total < 2 * total * r + 2 * total
  {
    var d := 2 * total;
    var n := 200 * completed + total;
    assert d * (n / d) + n % d == n;
    n / d
  }

  /** `SetPlanItems`: the items are replaced and the progress recomputed. */
  function SetPlanItems(v: PlanView, items: seq<bool>): (r: PlanView)
    ensures r.goal == v.goal && r.items == items
    ensures 0 <= r.progress <= 100
  {
    ProgressInRange(items);
    v.(items := items, progress := Progress(items))
  }

  /** `SetGoal`. */
  function SetGoal(v: PlanView, goal: string): (r: PlanView)
    ensures r.items == v.items && r.progress == v.progress && r.goal == goal
  {
    v.(goal := goal)
  }

  // ---- properties ----

  /** The rounded percentage of `completed` out of `total` lies between 0 and 100. */
  lemma PercentInRange(completed: nat, total: nat)
    requires 0 < total && completed <= total
    ensures 0 <= RoundedPercent(completed, total) <= 100
  {
    var r := RoundedPercent(completed, total);
    assert 2 * total * r <= 201 * total < 202 * total;
    assert 2 * total * r < 2 * total * 101;
    LessByFactor(2 * total, r, 101);
    assert 0 < 2 * total * r + 2 * total;
    assert 2 * total * (-1) < 2 * total * r;
    LessByFactor(2 * total, -1, r);
  }

  /** Cancelling a positive factor on both sides of a strict inequality. */
  lemma LessByFactor(k: int, a: int, b: int)
    requires k > 0 && k * a < k * b
    ensures a < b
  {
    assert k * (b - a) == k * b - k * a > 0;
  }

  lemma ProgressInRange(items: seq<bool>)
    ensures 0 <= Progress(items) <= 100
  {
    if |items| > 0 {
      PercentInRange(CountCompleted(items), |items|);
    }
  }

  /** All items completed gives 100, none completed gives 0. */
  lemma ProgressAtEnds(completed: nat, total: nat)
    requires total > 0
    ensures RoundedPercent(total, total) == 100
    ensures RoundedPercent(0, total) == 0
  {
    var full := RoundedPercent(total, total);
    assert 2 * total * full <= 201 * total < 2 * total * full + 2 * total;
    assert 2 * total * full < 2 * total * 101;
    LessByFactor(2 * total, full, 101);
    assert 2 * total * 99 < 2 * total * full;
    LessByFactor(2 * total, 99, full);
    var none := RoundedPercent(0, total);
    assert 2 * total * none <= total < 2 * total * none + 2 * total;
    assert 2 * total * none < 2 * total * 1;
    LessByFactor(2 * total, none, 1);
    assert 2 * total * (-1) < 2 * total * none;
    LessByFactor(2 * total, -1, none);
  }

  /** For a fixed number of items, more completed items never lower the progress. */
  lemma ProgressMonotone(c1: nat, c2: nat, total: nat)
    requires 0 < total && c1 <= c2
    ensures RoundedPercent(c1, total) <= RoundedPercent(c2, total)
  {
    var r1, r2 := RoundedPercent(c1, total), RoundedPercent(c2, total);
    assert 2 * total * r1 <= 200 * c1 + total <= 200 * c2 + total < 2 * total * r2 + 2 * total;
    assert 2 * total * r2 + 2 * total == 2 * total * (r2 + 1);
    LessByFactor(2 * total, r1, r2 + 1);
  }

  /** A plan whose every item is completed shows 100, one with none completed shows 0. */
  lemma {:induction false} CompletedCounts(items: seq<bool>)
    ensures (forall i :: 0 <= i < |items| ==> items[i]) ==> CountCompleted(items) == |items|
    ensures (forall i :: 0 <= i < |items| ==> !items[i]) ==> CountCompleted(items) == 0
    decreases |items|
  {
    if |items| > 0 {
      CompletedCounts(items[1..]);
      assert forall i :: 0 <= i < |items[1..]| ==> items[1..][i] == items[i + 1];
    }
  }

  lemma ProgressOfFullAndEmptyPlans(items: seq<bool>)
    requires |items| > 0
    ensures (forall i :: 0 <= i < |items| ==> items[i]) ==> Progress(items) == 100
    ensures (forall i :: 0 <= i < |items| ==> !items[i]) ==> Progress(items) == 0
  {
    CompletedCounts(items);
    ProgressAtEnds(0, |items|);
  }
}
