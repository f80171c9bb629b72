/**
 * Reading the time an item was added: the compaction session stamps each appended
 * item with `providerData.harper.addedAtMs`, and only the last item is consulted.
 */
module Timestamps {
  import opened Wrappers
  import opened JsValues

  /** `item?.providerData?.harper?.addedAtMs`. */
  function StampOf(item: Value): Value {
    Get(Get(Get(item, "providerData"), "harper"), "addedAtMs")
  }

  /** The stamp as a finite number, or nothing for a missing, non-numeric or non-finite value. */
  function FiniteStamp(item: Value): (r: Option<real>)
    ensures r.Some? <==> StampOf(item).Num? && StampOf(item).n.Finite?
    ensures r.Some? ==> StampOf(item) == Num(Finite(r.value))
  {
    var ts := StampOf(item);
    if ts.Num? && ts.n.Finite? then Some(ts.n.r) else None
  }

  /** `getLastAddedTimestamp(items)`: non-arrays and empty arrays give null. */
  function LastAddedTimestamp(items: Value): (r: Option<real>)
    ensures !items.Arr? ==> r == None
    ensures items.Arr? && |items.elems| == 0 ==> r == None
    ensures items.Arr? && |items.elems| > 0 ==> r == FiniteStamp(items.elems[|items.elems| - 1])
  {
    if !items.Arr? || |items.elems| == 0 then None
    else FiniteStamp(items.elems[|items.elems| - 1])
  }

  /** Only the last item matters: whatever comes before it is ignored. */
  lemma OnlyLastConsulted(earlier: seq<Value>, last: Value)
    ensures LastAddedTimestamp(Arr(earlier + [last])) == LastAddedTimestamp(Arr([last]))
  {
  }

  /** A stamped earlier item does not help when the last item carries no stamp. */
  lemma EarlierStampIgnored(t: real, last: Value)
    requires StampOf(last) == Undefined
    ensures LastAddedTimestamp(Arr([Obj(map["providerData" := Obj(map["harper" := Obj(map["addedAtMs" := Num(Finite(t))])])]), last])) == None
  {
  }

  /** A string stamp or an infinite one reads as null. */
  lemma NonFiniteStampIgnored(h: Value)
    requires h == Str("now") || h == Num(PosInf) || h == Num(NaN)
    ensures LastAddedTimestamp(Arr([Obj(map["providerData" := Obj(map["harper" := Obj(map["addedAtMs" := h])])])])) == None
  {
  }
}
