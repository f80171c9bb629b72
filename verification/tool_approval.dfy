/**
 * What every tool's approval check starts with: a call the user has already approved
 * (the run is being resumed after an interruption) is not asked about again.
 */
module ToolApproval {
  import opened Wrappers

  /** A call id is usable when it is present and non-empty (JavaScript truthiness). */
  predicate HasCallId(callId: Option<string>)
    ensures HasCallId(callId) <==> callId.Some? && |callId.value| > 0
  {
    callId.Some? && callId.value != ""
  }

  /** `callId && runContext.isToolApproved({ toolName, callId })`, with the approvals as a predicate. */
  predicate Replayed(callId: Option<string>, isApproved: string -> bool)
    ensures callId.None? || callId == Some("") ==> !Replayed(callId, isApproved)
    ensures callId.Some? && callId.value != "" ==> (Replayed(callId, isApproved) <==> isApproved(callId.value))
  {
    HasCallId(callId) && isApproved(callId.value)
  }
}
