/**
 * The rate-limit tracker: a record of the provider's request and token limits, what
 * remains of them, when they reset and how long to wait, filled from response headers.
 * Header names are matched without regard to letter case (section 5.1 of RFC 9110),
 * each field follows its own chain of vendor header names, and only fields whose
 * header is present and non-empty change.
 */
module RateLimits {
  import opened Wrappers
  import opened Strings

  /** A header value as received: absent, one string, or a list whose first element is used. */
  datatype HeaderValue = Absent | One(s: string) | Many(xs: seq<string>)

  /** A number produced by `parseInt`: an integer or NaN. */
  datatype Parsed = Int(i: int) | NaN

  datatype RateLimitStatus = RateLimitStatus(
    limitRequests: Option<Parsed>,
    limitTokens: Option<Parsed>,
    remainingRequests: Option<Parsed>,
    remainingTokens: Option<Parsed>,
    resetRequests: Option<string>,
    resetTokens: Option<string>,
    retryAfter: Option<Parsed>)

  /** Every field null: the initial record and the one `reset` leaves. */
  const Cleared := RateLimitStatus(None, None, None, None, None, None, None)

  const LimitRequestsChain := ["x-ratelimit-limit-requests", "anthropic-ratelimit-requests-limit", "x-ratelimit-limit", "ratelimit-limit", "x-request-limit"]
  const LimitTokensChain := ["x-ratelimit-limit-tokens", "anthropic-ratelimit-tokens-limit", "x-token-limit"]
  const RemainingRequestsChain := ["x-ratelimit-remaining-requests", "anthropic-ratelimit-requests-remaining", "x-ratelimit-remaining", "ratelimit-remaining", "x-request-remaining"]
  const RemainingTokensChain := ["x-ratelimit-remaining-tokens", "anthropic-ratelimit-tokens-remaining", "x-token-remaining"]
  const ResetRequestsChain := ["x-ratelimit-reset-requests", "anthropic-ratelimit-requests-reset", "x-ratelimit-reset", "ratelimit-reset", "x-request-reset"]
  const ResetTokensChain := ["x-ratelimit-reset-tokens", "anthropic-ratelimit-tokens-reset", "x-token-reset"]
  const RetryAfterChain := ["retry-after"]

  /** The headers keyed by lower-cased name; a later key overrides an earlier one that lower-cases the same. */
  function Normalize(headers: seq<(string, HeaderValue)>): (m: map<string, HeaderValue>)
    ensures forall k :: k in m ==> ToLower(k) == k
  {
    if |headers| == 0 then map[]
    else
      var last := headers[|headers| - 1];
      ToLowerIdempotent(last.0);
      Normalize(headers[..|headers| - 1])[ToLower(last.0) := last.1]
  }

  /** `getHeader(name)`: the value under the lower-cased name, the first element of a list. */
  function GetHeader(norm: map<string, HeaderValue>, name: string): (r: Option<string>)
    ensures r.Some? ==> ToLower(name) in norm
  {
    if ToLower(name) !in norm then None
    else match norm[ToLower(name)]
      case Absent => None
      case One(s) => Some(s)
      case Many(xs) => if |xs| > 0 then Some(xs[0]) else None
  }

  predicate EmptyHeader(h: Option<string>) {
    h.None? || h.value == ""
  }

  /** The `||` chain: the first header in the list that is present and non-empty. */
  function FirstNonEmpty(norm: map<string, HeaderValue>, names: seq<string>): (r: Option<string>)
    ensures r.Some? ==> r.value != ""
  {
    if |names| == 0 then None
    else
      var h := GetHeader(norm, names[0]);
      if !EmptyHeader(h) then h else FirstNonEmpty(norm, names[1..])
  }

  /** The chain yields the header at some position, and every header before it is absent or empty. */
  lemma {:induction false} FirstNonEmptyIsFirst(norm: map<string, HeaderValue>, names: seq<string>)
    ensures FirstNonEmpty(norm, names).None? <==> forall i :: 0 <= i < |names| ==> EmptyHeader(GetHeader(norm, names[i]))
    ensures FirstNonEmpty(norm, names).Some? ==>
      exists i :: (0 <= i < |names| && GetHeader(norm, names[i]) == FirstNonEmpty(norm, names)
        && forall j :: 0 <= j < i ==> EmptyHeader(GetHeader(norm, names[j])))
  {
    if |names| > 0 && EmptyHeader(GetHeader(norm, names[0])) {
      var tail := names[1..];
      FirstNonEmptyIsFirst(norm, tail);
      assert forall i :: 1 <= i < |names| ==> names[i] == tail[i - 1];
      if FirstNonEmpty(norm, tail).Some? {
        var i :| 0 <= i < |tail| && GetHeader(norm, tail[i]) == FirstNonEmpty(norm, tail)
          && forall j :: 0 <= j < i ==> EmptyHeader(GetHeader(norm, tail[j]));
        assert GetHeader(norm, names[i + 1]) == FirstNonEmpty(norm, names);
      }
    }
  }

  function ParseField(v: string): Parsed {
    var p := ParseInt(v);
    if p.Some? then Int(p.value) else NaN
  }

  /** A numeric field: replaced by the parsed header when one is present, otherwise kept. */
  function NumericUpdate(prior: Option<Parsed>, header: Option<string>): (r: Option<Parsed>)
    ensures header.None? ==> r == prior
    ensures header.Some? ==> r == Some(ParseField(header.value))
  {
    if header.Some? then Some(ParseField(header.value)) else prior
  }

  function TextUpdate(prior: Option<string>, header: Option<string>): (r: Option<string>)
    ensures header.None? ==> r == prior
    ensures header.Some? ==> r == header
  {
    if header.Some? then header else prior
  }

  /** `updateFromHeaders`. */
  function UpdateFromHeaders(st: RateLimitStatus, headers: seq<(string, HeaderValue)>): (r: RateLimitStatus)
    ensures var n := Normalize(headers);
      && r.limitRequests == NumericUpdate(st.limitRequests, FirstNonEmpty(n, LimitRequestsChain))
      && r.limitTokens == NumericUpdate(st.limitTokens, FirstNonEmpty(n, LimitTokensChain))
      && r.remainingRequests == NumericUpdate(st.remainingRequests, FirstNonEmpty(n, RemainingRequestsChain))
      && r.remainingTokens == NumericUpdate(st.remainingTokens, FirstNonEmpty(n, RemainingTokensChain))
      && r.resetRequests == TextUpdate(st.resetRequests, FirstNonEmpty(n, ResetRequestsChain))
      && r.resetTokens == TextUpdate(st.resetTokens, FirstNonEmpty(n, ResetTokensChain))
      && r.retryAfter == NumericUpdate(st.retryAfter, FirstNonEmpty(n, RetryAfterChain))
  {
    var n := Normalize(headers);
    RateLimitStatus(
      NumericUpdate(st.limitRequests, FirstNonEmpty(n, LimitRequestsChain)),
      NumericUpdate(st.limitTokens, FirstNonEmpty(n, LimitTokensChain)),
      NumericUpdate(st.remainingRequests, FirstNonEmpty(n, RemainingRequestsChain)),
      NumericUpdate(st.remainingTokens, FirstNonEmpty(n, RemainingTokensChain)),
      TextUpdate(st.resetRequests, FirstNonEmpty(n, ResetRequestsChain)),
      TextUpdate(st.resetTokens, FirstNonEmpty(n, ResetTokensChain)),
      NumericUpdate(st.retryAfter, FirstNonEmpty(n, RetryAfterChain)))
  }

  /** A usage percentage: a real number, or NaN when the remaining count did not parse. */
  datatype Percent = Pct(r: real) | PctNaN

  /** One dimension's usage: `100 * (1 - remaining / limit)` when the limit is truthy and remaining is non-null, else 0. */
  function Usage(limit: Option<Parsed>, remaining: Option<Parsed>): (p: Percent)
    ensures (limit.None? || limit.value == NaN || limit.value == Int(0) || remaining.None?) ==> p == Pct(0.0)
    ensures limit.Some? && limit.value.Int? && limit.value.i != 0 && remaining.Some? && remaining.value.Int? ==>
      p.Pct? && p.r * limit.value.i as real == 100.0 * (limit.value.i - remaining.value.i) as real
  {
    if limit.Some? && limit.value.Int? && limit.value.i != 0 && remaining.Some? then
      match remaining.value
      case Int(rem) => Pct(100.0 * (1.0 - rem as real / limit.value.i as real))
      case NaN => PctNaN
    else Pct(0.0)
  }

  datatype UsagePercentage = UsagePercentage(requests: Percent, tokens: Percent)

  /**
   * `getUsagePercentage`: each dimension is NaN exactly when its limit is a non-zero
   * number and its remaining count did not parse, and an untouched quota reads as 0.
   */
  function GetUsagePercentage(st: RateLimitStatus): (u: UsagePercentage)
    ensures u.requests.PctNaN? <==> (st.limitRequests.Some? && st.limitRequests.value.Int?
                                     && st.limitRequests.value.i != 0 && st.remainingRequests == Some(NaN))
    ensures u.tokens.PctNaN? <==> (st.limitTokens.Some? && st.limitTokens.value.Int?
                                   && st.limitTokens.value.i != 0 && st.remainingTokens == Some(NaN))
    ensures st.remainingRequests == st.limitRequests ==> u.requests == Pct(0.0)
    ensures st.remainingTokens == st.limitTokens ==> u.tokens == Pct(0.0)
    ensures (st.limitRequests.Some? && st.limitRequests.value.Int? && st.limitRequests.value.i != 0
             && st.remainingRequests == Some(Int(0))) ==> u.requests == Pct(100.0)
  {
    UsagePercentage(Usage(st.limitRequests, st.remainingRequests), Usage(st.limitTokens, st.remainingTokens))
  }

  /** `usage >= threshold`; a NaN usage never compares true. */
  predicate AtLeast(p: Percent, threshold: real) {
    p.Pct? && p.r >= threshold
  }

  datatype Approaching = Approaching(requests: bool, tokens: bool)

  function IsApproachingLimit(st: RateLimitStatus, threshold: real): (r: Approaching)
    ensures r.requests <==> AtLeast(GetUsagePercentage(st).requests, threshold)
    ensures r.tokens <==> AtLeast(GetUsagePercentage(st).tokens, threshold)
  {
    var u := GetUsagePercentage(st);
    Approaching(AtLeast(u.requests, threshold), AtLeast(u.tokens, threshold))
  }

  function Reset(st: RateLimitStatus): (r: RateLimitStatus)
    ensures r == Cleared
  {
    Cleared
  }

  // ---------------------------------------------------------------------------
  // Properties.

  /** Applying the same headers twice is applying them once. */
  lemma UpdateIdempotent(st: RateLimitStatus, headers: seq<(string, HeaderValue)>)
    ensures UpdateFromHeaders(UpdateFromHeaders(st, headers), headers) == UpdateFromHeaders(st, headers)
  {
  }

  /** No headers, no change. */
  lemma UpdateWithoutHeaders(st: RateLimitStatus)
    ensures UpdateFromHeaders(st, []) == st
  {
    assert Normalize([]) == map[];
    NothingWithoutHeaders(LimitRequestsChain);
    NothingWithoutHeaders(LimitTokensChain);
    NothingWithoutHeaders(RemainingRequestsChain);
    NothingWithoutHeaders(RemainingTokensChain);
    NothingWithoutHeaders(ResetRequestsChain);
    NothingWithoutHeaders(ResetTokensChain);
    NothingWithoutHeaders(RetryAfterChain);
  }

  lemma {:induction false} NothingWithoutHeaders(names: seq<string>)
    ensures FirstNonEmpty(map[], names) == None
    decreases |names|
  {
    if |names| > 0 {
      NothingWithoutHeaders(names[1..]);
    }
  }

  function LowerKeys(headers: seq<(string, HeaderValue)>): (r: seq<(string, HeaderValue)>)
    ensures |r| == |headers|
    ensures forall i :: 0 <= i < |r| ==> r[i] == (ToLower(headers[i].0), headers[i].1)
  {
    seq(|headers|, i requires 0 <= i < |headers| => (ToLower(headers[i].0), headers[i].1))
  }

  /** Header names are case-insensitive: lower-casing every name changes nothing. */
  lemma {:induction false} NormalizeIgnoresCase(headers: seq<(string, HeaderValue)>)
    ensures Normalize(LowerKeys(headers)) == Normalize(headers)
  {
    if |headers| > 0 {
      var init := headers[..|headers| - 1];
      assert LowerKeys(headers)[..|headers| - 1] == LowerKeys(init);
      NormalizeIgnoresCase(init);
      ToLowerIdempotent(headers[|headers| - 1].0);
    }
  }

  lemma UpdateIgnoresCase(st: RateLimitStatus, headers: seq<(string, HeaderValue)>)
    ensures UpdateFromHeaders(st, LowerKeys(headers)) == UpdateFromHeaders(st, headers)
  {
    NormalizeIgnoresCase(headers);
  }

  /** With remaining within the limit, usage lies between 0 and 100 percent. */
  lemma UsageBounds(limit: int, remaining: int)
    requires 0 < limit && 0 <= remaining <= limit
    ensures var p := Usage(Some(Int(limit)), Some(Int(remaining)));
      p.Pct? && 0.0 <= p.r <= 100.0
  {
    var p := Usage(Some(Int(limit)), Some(Int(remaining)));
    assert p.r * limit as real == 100.0 * (limit - remaining) as real;
  }

  /** A lower threshold flags at least what a higher one flags. */
  lemma ApproachingMonotone(st: RateLimitStatus, t1: real, t2: real)
    requires t1 <= t2
    ensures IsApproachingLimit(st, t2).requests ==> IsApproachingLimit(st, t1).requests
    ensures IsApproachingLimit(st, t2).tokens ==> IsApproachingLimit(st, t1).tokens
  {
  }

  /** A chain none of whose names has the length of the only header present finds nothing. */
  lemma {:induction false} ChainMissesByLength(norm: map<string, HeaderValue>, key: string, names: seq<string>)
    requires norm.Keys == {key}
    requires forall i :: 0 <= i < |names| ==> |names[i]| != |key|
    ensures FirstNonEmpty(norm, names) == None
  {
    if |names| > 0 {
      assert |ToLower(names[0])| != |key|;
      ChainMissesByLength(norm, key, names[1..]);
    }
  }

  lemma RetryAfterNormalized(v: string)
    ensures Normalize([("Retry-After", One(v))]) == map["retry-after" := One(v)]
  {
    var h := [("Retry-After", One(v))];
    assert h[..0] == [];
    assert ToLower("Retry-After") == "retry-after";
  }

  /** A rendered natural number parses back to itself. */
  lemma ParsedRendering(n: nat)
    ensures ParseField(NatToString(n)) == Int(n)
  {
    ParseNatRoundTrip(n);
  }

  /** `retry-after: n` is stored as the integer n (seconds) and nothing else changes. */
  lemma RetryAfterExample(st: RateLimitStatus, n: nat)
    ensures var r := UpdateFromHeaders(st, [("Retry-After", One(NatToString(n)))]);
      r.retryAfter == Some(Int(n)) && r.(retryAfter := st.retryAfter) == st
  {
    var v := NatToString(n);
    var norm := Normalize([("Retry-After", One(v))]);
    RetryAfterNormalized(v);
    ParsedRendering(n);
    RetryChainHit(norm, v);
    OtherChainsMiss(norm, v);
  }

  lemma RetryChainHit(n: map<string, HeaderValue>, v: string)
    requires n == map["retry-after" := One(v)] && v != ""
    ensures FirstNonEmpty(n, RetryAfterChain) == Some(v)
  {
    assert ToLower("retry-after") == "retry-after";
    assert RetryAfterChain[1..] == [];
  }

  lemma OtherChainsMiss(n: map<string, HeaderValue>, v: string)
    requires n == map["retry-after" := One(v)]
    ensures FirstNonEmpty(n, LimitRequestsChain) == None && FirstNonEmpty(n, LimitTokensChain) == None
    ensures FirstNonEmpty(n, RemainingRequestsChain) == None && FirstNonEmpty(n, RemainingTokensChain) == None
    ensures FirstNonEmpty(n, ResetRequestsChain) == None && FirstNonEmpty(n, ResetTokensChain) == None
  {
    ChainMissesByLength(n, "retry-after", LimitRequestsChain);
    ChainMissesByLength(n, "retry-after", LimitTokensChain);
    ChainMissesByLength(n, "retry-after", RemainingRequestsChain);
    ChainMissesByLength(n, "retry-after", RemainingTokensChain);
    ChainMissesByLength(n, "retry-after", ResetRequestsChain);
    ChainMissesByLength(n, "retry-after", ResetTokensChain);
  }
}
