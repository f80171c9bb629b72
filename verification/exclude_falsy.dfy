/** The `excludeFalsy` filter predicate and the filter it drives. */
module Arrays {
  import opened JsValues

  /** `excludeFalsy(x)`: keeps exactly the truthy values. */
  predicate ExcludeFalsy(v: Value)
    ensures !ExcludeFalsy(v) <==> (v == Undefined || v == Null || v == Bool(false) || v == Str("")
                                   || v == Num(Finite(0.0)) || v == Num(NaN))
  {
    Truthy(v)
  }

  /** `xs.filter(excludeFalsy)`. */
  function FilterTruthy(xs: seq<Value>): (r: seq<Value>)
    ensures |r| <= |xs|
    ensures forall i :: 0 <= i < |r| ==> Truthy(r[i])
    ensures forall v :: v in r ==> v in xs
    ensures (forall i :: 0 <= i < |xs| ==> Truthy(xs[i])) ==> r == xs
  {
    if |xs| == 0 then []
    else if ExcludeFalsy(xs[0]) then [xs[0]] + FilterTruthy(xs[1..])
    else FilterTruthy(xs[1..])
  }

  /** Filtering distributes over concatenation, so the kept elements stay in their original order. */
  lemma {:induction false} FilterAppend(a: seq<Value>, b: seq<Value>)
    ensures FilterTruthy(a + b) == FilterTruthy(a) + FilterTruthy(b)
  {
    if |a| == 0 {
      assert a + b == b;
    } else {
      assert (a + b)[0] == a[0];
      assert (a + b)[1..] == a[1..] + b;
      FilterAppend(a[1..], b);
    }
  }

  /** Every truthy element is kept. */
  lemma {:induction false} FilterKeepsTruthy(xs: seq<Value>, v: Value)
    requires v in xs && Truthy(v)
    ensures v in FilterTruthy(xs)
  {
    if xs[0] != v {
      FilterKeepsTruthy(xs[1..], v);
    }
  }

  /** Filtering twice is filtering once. */
  lemma FilterIdempotent(xs: seq<Value>)
    ensures FilterTruthy(FilterTruthy(xs)) == FilterTruthy(xs)
  {
  }

  lemma FilterCons(v: Value, xs: seq<Value>)
    ensures FilterTruthy([v] + xs) == (if Truthy(v) then [v] else []) + FilterTruthy(xs)
  {
    assert ([v] + xs)[1..] == xs;
  }

  /** The falsy values 0, '', false, null and undefined are all removed; the rest keep their order. */
  lemma FilterExample(a: Value, b: Value)
    requires Truthy(a) && Truthy(b)
    ensures FilterTruthy([Num(Finite(0.0)), a, Str(""), Bool(false), b, Null, Undefined]) == [a, b]
  {
    FilterCons(Undefined, []);
    FilterCons(Null, [Undefined]);
    FilterCons(b, [Null, Undefined]);
    FilterCons(Bool(false), [b, Null, Undefined]);
    FilterCons(Str(""), [Bool(false), b, Null, Undefined]);
    FilterCons(a, [Str(""), Bool(false), b, Null, Undefined]);
    FilterCons(Num(Finite(0.0)), [a, Str(""), Bool(false), b, Null, Undefined]);
  }
}
