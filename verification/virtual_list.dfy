/**
 * The viewport arithmetic of the scrolling list: which items are drawn from the offset,
 * how the offset follows the selection, and the overflow counts above and below. Items
 * are seen only through their heights.
 */
module VirtualList {

  function Max(a: int, b: int): int { if a >= b then a else b }
  function Min(a: int, b: int): int { if a <= b then a else b }

  /** The sum of a sequence of heights. */
  function Sum(s: seq<int>): int
    decreases |s|
  {
    if |s| == 0 then 0 else Sum(s[..|s| - 1]) + s[|s| - 1]
  }

  /** Extending a run of items by one at the end. */
  lemma SumSnoc(s: seq<int>, a: nat, b: nat)
    requires a <= b < |s|
    ensures Sum(s[a..b + 1]) == Sum(s[a..b]) + s[b]
  {
    assert s[a..b + 1][..b - a] == s[a..b];
  }

  /** Extending a run of items by one at the front. */
  lemma {:induction false} SumCons(s: seq<int>)
    requires |s| > 0
    ensures Sum(s) == s[0] + Sum(s[1..])
    decreases |s|
  {
    if |s| > 1 {
      var init := s[..|s| - 1];
      SumCons(init);
      assert init[1..] == s[1..][..|s| - 2];
    } else {
      assert s[1..] == [];
    }
  }

  /** The total height of the items from `from` up to, not including, `to`. */
  function Height(heights: seq<int>, from: nat, to: nat): int
    requires from <= to <= |heights|
  {
    Sum(heights[from..to])
  }

  /** The total height of the items from `from` through `last`. */
  function HeightThrough(heights: seq<int>, from: nat, last: nat): int
    requires from <= last + 1 <= |heights|
  {
    Sum(heights[from..last + 1])
  }

  predicate NonNegative(heights: seq<int>) {
    forall i :: 0 <= i < |heights| ==> heights[i] >= 0
  }

  /** With heights that are never negative, a longer run from the same start is at least as tall. */
  lemma {:induction false} SumMonotone(s: seq<int>, a: nat, b: nat, c: nat)
    requires a <= b <= c <= |s| && NonNegative(s)
    ensures Sum(s[a..b]) <= Sum(s[a..c])
    decreases c - b
  {
    if b < c {
      SumMonotone(s, a, b, c - 1);
      SumSnoc(s, a, c - 1);
    }
  }

  // ---- heights ----

  /** The `height` property: a number of rows, a percentage of the terminal, or nothing. */
  datatype HeightSpec = Rows(n: int) | Percent(value: real) | Unset

  /**
   * The height of the list: rows given directly, the floor of a percentage of the terminal
   * (`value` is what `parseFloat` reads from the string), or the terminal less the
   * reserved lines and at least one row.
   */
  function ResolvedHeight(spec: HeightSpec, terminalRows: int, reservedLines: int): (r: int)
    ensures spec.Unset? ==> r >= 1 && r >= terminalRows - reservedLines
    ensures spec.Rows? ==> r == spec.n
    ensures spec.Percent? ==> r as real <= terminalRows as real * (spec.value / 100.0) < r as real + 1.0
    ensures spec.Percent? && 0.0 <= spec.value <= 100.0 && terminalRows >= 0 ==> 0 <= r <= terminalRows
  {
    match spec
    case Rows(n) => n
    case Percent(value) => PercentRows(terminalRows, value)
    case Unset => Max(1, terminalRows - reservedLines)
  }

  /** The floor of `value` percent of the terminal's rows. */
  function PercentRows(terminalRows: int, value: real): (r: int)
    ensures r as real <= terminalRows as real * (value / 100.0) < r as real + 1.0
    ensures 0.0 <= value <= 100.0 && terminalRows >= 0 ==> 0 <= r <= terminalRows
  {
    var f := terminalRows as real * (value / 100.0);
    if 0.0 <= value <= 100.0 && terminalRows >= 0 then
      ScaleWithin(terminalRows as real, value / 100.0);
      assert f.Floor as real <= f <= terminalRows as real;
      assert f < f.Floor as real + 1.0;
      f.Floor
    else f.Floor
  }

  /** A larger percentage of the same terminal never gives fewer rows. */
  lemma PercentRowsMonotone(terminalRows: nat, v: real, w: real)
    requires v <= w
    ensures PercentRows(terminalRows, v) <= PercentRows(terminalRows, w)
  {
    var x := terminalRows as real;
    var sv, sw := x * (v / 100.0), x * (w / 100.0);
    ScaleMonotone(x, v / 100.0, w / 100.0);
    FloorMonotone(sv, sw);
    assert PercentRows(terminalRows, v) == sv.Floor;
    assert PercentRows(terminalRows, w) == sw.Floor;
  }

  lemma FloorMonotone(a: real, b: real)
    requires a <= b
    ensures a.Floor <= b.Floor
  {
  }

  lemma ScaleMonotone(x: real, p: real, q: real)
    requires 0.0 <= x && p <= q
    ensures x * p <= x * q
  {
    assert x * q - x * p == x * (q - p);
  }

  lemma ScaleWithin(x: real, p: real)
    requires 0.0 <= x && 0.0 <= p <= 1.0
    ensures 0.0 <= x * p <= x
  {
    assert x * p <= x * 1.0;
  }

  /** The rows left for items once the two indicator lines, if shown, are taken off. */
  function AvailableHeight(resolvedHeight: int, showOverflowIndicators: bool): (r: int)
    ensures r >= 0
    ensures r > 0 ==> r == resolvedHeight - (if showOverflowIndicators then 2 else 0)
    ensures r == 0 ==> resolvedHeight <= (if showOverflowIndicators then 2 else 0)
  {
    Max(0, resolvedHeight - (if showOverflowIndicators then 2 else 0))
  }

  /** The selected index brought into the list; 0 for an empty list. */
  function ClampIndex(selectedIndex: int, count: nat): (r: nat)
    ensures count > 0 ==> r < count
    ensures count == 0 ==> r == 0
    ensures 0 <= selectedIndex < count ==> r == selectedIndex
    ensures count > 0 && selectedIndex >= count ==> r == count - 1
  {
    Max(0, Min(selectedIndex, count - 1))
  }

  // ---- the visible window ----

  /**
   * `count` items from `offset` are drawn: none when there is no room or nothing from the
   * offset; otherwise at least one, however tall, and each further item only while the
   * run still fits, stopping at the first that does not.
   */
  predicate IsWindow(heights: seq<int>, offset: nat, available: int, count: nat) {
    if available <= 0 || offset >= |heights| then count == 0
    else
      1 <= count && offset + count <= |heights|
      && (forall e :: offset + 1 < e <= offset + count ==> Height(heights, offset, e) <= available)
      && (offset + count < |heights| ==> Height(heights, offset, offset + count + 1) > available)
  }

  /** The loop that collects the visible items. */
  method VisibleWindow(heights: seq<int>, offset: nat, available: int) returns (count: nat)
    ensures IsWindow(heights, offset, available, count)
  {
    if available <= 0 || offset >= |heights| {
      return 0;
    }
    count := 0;
    var current := 0;
    var i := offset;
    while i < |heights| && !(count > 0 && current + heights[i] > available)
      invariant i == offset + count <= |heights|
      invariant current == Height(heights, offset, i)
      invariant forall e :: offset + 1 < e <= i ==> Height(heights, offset, e) <= available
      decreases |heights| - i
    {
      SumSnoc(heights, offset, i);
      current := current + heights[i];
      count := count + 1;
      i := i + 1;
    }
    if count > 0 && i < |heights| {
      SumSnoc(heights, offset, i);
    }
  }

  // ---- following the selection ----

  /** The `isVisible` loop: every run from the offset up to the selection fits. */
  method SelectionVisible(heights: seq<int>, offset: nat, selected: nat, available: int) returns (visible: bool)
    requires selected < |heights|
    ensures visible <==> (offset <= selected
      && forall e :: offset < e <= selected + 1 ==> Height(heights, offset, e) <= available)
  {
    if offset > selected {
      return false;
    }
    visible := false;
    var total := 0;
    var i := offset;
    while i <= selected
      invariant offset <= i <= selected + 1
      invariant total == Height(heights, offset, i)
      invariant forall e :: offset < e <= i ==> Height(heights, offset, e) <= available
      invariant visible <==> i == selected + 1 && offset <= selected
      decreases selected + 1 - i
    {
      SumSnoc(heights, offset, i);
      if total + heights[i] > available {
        assert Height(heights, offset, i + 1) > available;
        return false;
      }
      total := total + heights[i];
      if i == selected {
        visible := true;
      }
      i := i + 1;
    }
  }

  /**
   * The loop that puts the selection at the bottom: walking up from it while the items
   * still fit. Every run from the start down to the selection fits, and the item above the
   * start would not; the start is one past the selection when the selection alone is too tall.
   */
  method BottomAlign(heights: seq<int>, selected: nat, available: int) returns (start: nat)
    requires selected < |heights|
    ensures start <= selected + 1
    ensures forall k :: start <= k <= selected ==> HeightThrough(heights, k, selected) <= available
    ensures start > 0 ==> HeightThrough(heights, start - 1, selected) > available
  {
    start := selected;
    var total := 0;
    assert heights[selected + 1..selected + 1] == [];
    while true
      invariant start <= selected
      invariant total == HeightThrough(heights, start + 1, selected)
      invariant forall k :: start < k <= selected ==> HeightThrough(heights, k, selected) <= available
      decreases start
    {
      SumCons(heights[start..selected + 1]);
      assert heights[start..selected + 1][1..] == heights[start + 1..selected + 1];
      if total + heights[start] > available {
        return start + 1;
      }
      total := total + heights[start];
      if start == 0 {
        return 0;
      }
      start := start - 1;
    }
  }

  /**
   * The effect that keeps the selection in view. `visibleCount` is the count of the last
   * drawing and `lastLength` the list length the effect saw before (it then records the
   * new length). A selection above the viewport becomes the offset; one below it, the last
   * item, or a list that was scrolled to the bottom brings the selection to the bottom.
   */
  method FollowSelection(heights: seq<int>, selectedIndex: int, offset: nat, lastLength: nat,
                         visibleCount: nat, available: int) returns (newOffset: nat)
    ensures |heights| == 0 || available <= 0 ==> newOffset == offset
    ensures |heights| > 0 && available > 0 && ClampIndex(selectedIndex, |heights|) < offset ==>
      newOffset == ClampIndex(selectedIndex, |heights|)
    ensures |heights| > 0 && available > 0 && heights[ClampIndex(selectedIndex, |heights|)] <= available ==>
      var sel := ClampIndex(selectedIndex, |heights|);
      newOffset <= sel && HeightThrough(heights, newOffset, sel) <= available
  {
    if |heights| == 0 || available <= 0 {
      return offset;
    }
    var sel := ClampIndex(selectedIndex, |heights|);
    var selectingLast := sel == |heights| - 1;
    var wasAtBottom := lastLength > 0 && offset + visibleCount >= lastLength;
    if sel < offset {
      assert heights[sel..sel + 1] == [heights[sel]];
      assert Sum([heights[sel]]) == Sum([]) + heights[sel];
      return sel;
    }
    var visible := SelectionVisible(heights, offset, sel, available);
    if !visible || selectingLast || wasAtBottom {
      var start := BottomAlign(heights, sel, available);
      if start == sel + 1 {
        assert heights[sel..sel + 1] == [heights[sel]];
        assert Sum([heights[sel]]) == Sum([]) + heights[sel];
      }
      newOffset := Max(0, start);
    } else {
      assert Height(heights, offset, sel + 1) <= available;
      newOffset := offset;
    }
  }

  /** The first drawing with items and room scrolls to the bottom; otherwise nothing is set yet. */
  method InitialOffset(heights: seq<int>, available: int) returns (offset: nat, isSet: bool)
    ensures isSet <==> |heights| > 0 && available > 0
    ensures !isSet ==> offset == 0
    ensures isSet ==> offset <= |heights|
    ensures isSet && heights[|heights| - 1] <= available ==>
      offset < |heights| && HeightThrough(heights, offset, |heights| - 1) <= available
    ensures isSet && offset > 0 ==> HeightThrough(heights, offset - 1, |heights| - 1) > available
  {
    if |heights| == 0 || available <= 0 {
      return 0, false;
    }
    var last := |heights| - 1;
    var start := BottomAlign(heights, last, available);
    assert heights[..] == heights;
    if start == last + 1 {
      assert heights[last..last + 1] == [heights[last]];
      assert Sum([heights[last]]) == Sum([]) + heights[last];
    }
    return Max(0, start), true;
  }

  // ---- overflow counts ----

  /** `count` items from `offset` fit strictly: every run of them fits and one more would not. */
  predicate IsFitting(heights: seq<int>, offset: nat, available: int, count: nat) {
    if offset >= |heights| then count == 0
    else
      offset + count <= |heights|
      && (forall e :: offset < e <= offset + count ==> Height(heights, offset, e) <= available)
      && (offset + count < |heights| ==> Height(heights, offset, offset + count + 1) > available)
  }

  /** The loop that counts the items fitting below the offset, and their total height. */
  method FittingBelow(heights: seq<int>, offset: nat, available: int) returns (count: nat, total: int)
    ensures IsFitting(heights, offset, available, count)
    ensures offset < |heights| ==> total == Height(heights, offset, offset + count)
  {
    count := 0;
    total := 0;
    if offset >= |heights| {
      return;
    }
    var i := offset;
    while i < |heights| && total + heights[i] <= available
      invariant i == offset + count <= |heights|
      invariant total == Height(heights, offset, i)
      invariant forall e :: offset < e <= i ==> Height(heights, offset, e) <= available
      decreases |heights| - i
    {
      SumSnoc(heights, offset, i);
      total := total + heights[i];
      count := count + 1;
      i := i + 1;
    }
    if i < |heights| {
      SumSnoc(heights, offset, i);
    }
  }

  /** The counts the indicators show: the items above the offset and those below the fitting ones. */
  datatype Overflow = Overflow(top: nat, bottom: nat)

  method OverflowCounts(heights: seq<int>, offset: nat, available: int) returns (r: Overflow)
    ensures r.top == offset
    ensures offset <= |heights| ==> exists k :: IsFitting(heights, offset, available, k) && offset + k + r.bottom == |heights|
    ensures offset >= |heights| ==> r.bottom == 0
  {
    var k, _ := FittingBelow(heights, offset, available);
    r := Overflow(offset, Max(0, |heights| - offset - k));
  }

  // ---- properties ----

  /** No room, no items: nothing is drawn and nothing fits. */
  lemma WindowEmptyWithoutRoom(heights: seq<int>, offset: nat, available: int, count: nat)
    requires available <= 0 && IsWindow(heights, offset, available, count)
    ensures count == 0
  {
  }

  /**
   * Drawn and fitting counts agree once there is room, except that one item is drawn even
   * when it alone is too tall.
   */
  lemma WindowIsFittingOrOne(heights: seq<int>, offset: nat, available: int, count: nat, fitting: nat)
    requires NonNegative(heights) && available > 0 && offset < |heights|
    requires IsWindow(heights, offset, available, count) && IsFitting(heights, offset, available, fitting)
    ensures count == Max(fitting, 1)
  {
    if fitting == 0 && offset + 2 <= |heights| {
      SumMonotone(heights, offset, offset + 1, offset + 2);
      assert Height(heights, offset, offset + 2) > available;
    }
  }

  /**
   * Once the offset leaves the selection fitting at the bottom, the drawn window reaches
   * the selection.
   */
  lemma SelectionDrawn(heights: seq<int>, offset: nat, selected: nat, available: int, count: nat)
    requires NonNegative(heights) && available > 0 && selected < |heights|
    requires offset <= selected && HeightThrough(heights, offset, selected) <= available
    requires IsWindow(heights, offset, available, count)
    ensures offset <= selected < offset + count
  {
    SumMonotone(heights, offset, Min(offset + count + 1, selected + 1), selected + 1);
  }
}
