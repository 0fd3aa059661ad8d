/** The control events of src/control/ControlEvents.ts; values of type unknown are JSON text. */
module ControlEvents {
  import opened Outcomes

  datatype RequestKind = ToolPermission | PlanApproval | UserQuestion

  datatype RequestState = Pending | Approved | Denied | Answered | Cancelled | TimedOut

  datatype Decision = Approve | Deny | Answer

  /** What a request proposes: a plan, another value, or nothing. */
  datatype Proposal = NoProposal | OtherProposal(json: string) | PlanProposal(planId: string, plan: string)

  datatype ControlRequest = ControlRequest(
    requestId: string,
    kind: RequestKind,
    state: RequestState,
    sessionKey: string,
    turnId: Option<string>,
    prompt: string,
    proposedInput: Proposal,
    createdAt: int,
    expiresAt: int,
    resolvedAt: Option<int>,
    decision: Option<Decision>,
    feedback: Option<string>,
    updatedInput: Option<string>,
    answer: Option<string>,
    cancelReason: Option<string>)

  datatype PlanState = Entered | Ready | AwaitingApproval | PlanApproved | Rejected | VerificationPending | Verified | PlanCancelled

  datatype EventBody =
    | Retry(retryTurn: string)
    | RequestCreated(request: ControlRequest, idempotencyKey: Option<string>)
    | RequestResolved(requestId: string, decision: Decision, feedback: Option<string>, updatedInput: Option<string>, answer: Option<string>)
    | RequestCancelled(requestId: string, reason: string)
    | RequestTimedOut(requestId: string)
    | PlanLifecycle(planId: string, planState: PlanState, planRequest: Option<string>, plan: Option<string>, planFeedback: Option<string>)
    | TaskBoardSnapshot(taskBoard: string)
    | Verification(status: string, verificationReason: Option<string>)
    | StopReason(stopTurn: string, stopReason: string)
    | ChildStarted(taskId: string, parentTurnId: Option<string>)
    | ChildActivity(taskId: string)
    | ChildCancelled(taskId: string, reason: string)
    | ChildFailed(taskId: string, errorMessage: string)
    | ChildCompleted(taskId: string, summary: Option<string>)
    | OtherEvent(eventType: string)

  datatype ControlEvent = ControlEvent(
    eventId: string, seqNo: int, ts: int, sessionKey: string, turnId: Option<string>, body: EventBody)

  /** An event that ends the wait for a request's outcome. */
  predicate IsTerminalFor(body: EventBody, requestId: string) {
    match body
    case RequestResolved(id, _, _, _, _) => id == requestId
    case RequestCancelled(id, _) => id == requestId
    case RequestTimedOut(id) => id == requestId
    case _ => false
  }

  predicate Creates(body: EventBody, requestId: string) {
    body.RequestCreated? && body.request.requestId == requestId
  }
}
