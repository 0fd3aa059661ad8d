/** A codec of control events that meets the law the ledger's guarantees assume. */
module LedgerCodec {
  import opened Outcomes
  import opened Names
  import opened ControlEvents
  import opened JsonLines

  // ---- A name for a list of texts

  function ListName(parts: seq<string>): (name: string)
    ensures IsName(name)
  {
    if parts == [] then "e" else "c" + StringName(parts[0]) + ListName(parts[1..])
  }

  lemma {:induction false} ListNameTells(a: seq<string>, b: seq<string>)
    requires ListName(a) == ListName(b)
    ensures a == b
  {
    hide StringName;
    if a != [] && b != [] {
      var u, v := ListName(a[1..]), ListName(b[1..]);
      assert ListName(a) == "c" + (StringName(a[0]) + u) && ListName(b) == "c" + (StringName(b[0]) + v);
      SameHead('c', 'c', StringName(a[0]) + u, StringName(b[0]) + v);
      StringIsDelimited(a[0], b[0], u, v);
      ListNameTells(a[1..], b[1..]);
      assert a == [a[0]] + a[1..] && b == [b[0]] + b[1..];
    } else {
      assert ListName(a)[0] == ListName(b)[0];
    }
  }

  // ---- The fields of an event as texts

  function OptionText(o: Option<string>): string {
    match o
    case None => ""
    case Some(s) => "s" + s
  }

  function TimeText(o: Option<int>): string {
    match o
    case None => ""
    case Some(n) => IntName(n)
  }

  function DecisionText(d: Decision): string {
    match d case Approve => "a" case Deny => "d" case Answer => "n"
  }

  function MadeText(o: Option<Decision>): string {
    match o
    case None => ""
    case Some(d) => DecisionText(d)
  }

  function KindText(k: RequestKind): string {
    match k case ToolPermission => "t" case PlanApproval => "p" case UserQuestion => "q"
  }

  function StateText(s: RequestState): string {
    match s
    case Pending => "p" case Approved => "a" case Denied => "d" case Answered => "n" case Cancelled => "c" case TimedOut => "t"
  }

  function PlanText(s: PlanState): string {
    match s
    case Entered => "e" case Ready => "r" case AwaitingApproval => "w" case PlanApproved => "a" case Rejected => "j"
    case VerificationPending => "p" case Verified => "v" case PlanCancelled => "c"
  }

  function ProposalTexts(p: Proposal): (texts: seq<string>)
    ensures |texts| == 3
  {
    match p
    case NoProposal => ["n", "", ""]
    case OtherProposal(json) => ["o", json, ""]
    case PlanProposal(planId, plan) => ["p", planId, plan]
  }

  function WhoAndWhat(r: ControlRequest): seq<string> {
    [r.requestId, KindText(r.kind), StateText(r.state), r.sessionKey, OptionText(r.turnId), r.prompt]
  }

  function Outcome(r: ControlRequest): seq<string> {
    [IntName(r.createdAt), IntName(r.expiresAt), TimeText(r.resolvedAt), MadeText(r.decision), OptionText(r.feedback),
     OptionText(r.updatedInput), OptionText(r.answer), OptionText(r.cancelReason)]
  }

  function RequestTexts(r: ControlRequest): (texts: seq<string>) {
    WhoAndWhat(r) + ProposalTexts(r.proposedInput) + Outcome(r)
  }

  function BodyTexts(b: EventBody): (texts: seq<string>)
    ensures texts != []
  {
    match b
    case Retry(turn) => ["a", turn]
    case RequestCreated(request, key) => ["b", OptionText(key)] + RequestTexts(request)
    case RequestResolved(id, decision, feedback, input, answer) =>
      ["c", id, DecisionText(decision), OptionText(feedback), OptionText(input), OptionText(answer)]
    case RequestCancelled(id, reason) => ["d", id, reason]
    case RequestTimedOut(id) => ["e", id]
    case PlanLifecycle(id, state, request, plan, feedback) =>
      ["f", id, PlanText(state), OptionText(request), OptionText(plan), OptionText(feedback)]
    case TaskBoardSnapshot(board) => ["g", board]
    case Verification(status, reason) => ["h", status, OptionText(reason)]
    case StopReason(turn, reason) => ["i", turn, reason]
    case ChildStarted(id, parent) => ["j", id, OptionText(parent)]
    case ChildActivity(id) => ["k", id]
    case ChildCancelled(id, reason) => ["l", id, reason]
    case ChildFailed(id, message) => ["m", id, message]
    case ChildCompleted(id, summary) => ["n", id, OptionText(summary)]
    case OtherEvent(eventType) => ["o", eventType]
  }

  function EventTexts(e: ControlEvent): (texts: seq<string>) {
    [e.eventId, IntName(e.seqNo), IntName(e.ts), e.sessionKey, OptionText(e.turnId)] + BodyTexts(e.body)
  }

  function EventName(e: ControlEvent): (name: string)
    ensures IsName(name)
  {
    ListName(EventTexts(e))
  }

  // ---- The texts tell the event

  lemma OptionTextTells(a: Option<string>, b: Option<string>)
    requires OptionText(a) == OptionText(b)
    ensures a == b
  {
    if a.Some? && b.Some? { SameHead('s', 's', a.value, b.value); }
  }

  lemma IntNameTells(m: int, n: int)
    requires IntName(m) == IntName(n)
    ensures m == n
  {
    hide IntName;
    assert IntName(m) + "" == IntName(n) + "";
    IntIsDelimited(m, n, "", "");
  }

  lemma TimeTextTells(a: Option<int>, b: Option<int>)
    requires TimeText(a) == TimeText(b)
    ensures a == b
  {
    hide IntName;
    if a.Some? && b.Some? { IntNameTells(a.value, b.value); }
  }

  lemma LettersTell()
    ensures forall a, b :: DecisionText(a) == DecisionText(b) ==> a == b
    ensures forall a, b :: MadeText(a) == MadeText(b) ==> a == b
    ensures forall a, b :: KindText(a) == KindText(b) ==> a == b
    ensures forall a, b :: StateText(a) == StateText(b) ==> a == b
    ensures forall a, b :: PlanText(a) == PlanText(b) ==> a == b
  {
    forall a, b | DecisionText(a) == DecisionText(b) ensures a == b { assert DecisionText(a)[0] == DecisionText(b)[0]; }
    forall a, b | MadeText(a) == MadeText(b) ensures a == b {
      if a.Some? && b.Some? { assert DecisionText(a.value)[0] == DecisionText(b.value)[0]; }
    }
    forall a, b | KindText(a) == KindText(b) ensures a == b { assert KindText(a)[0] == KindText(b)[0]; }
    forall a, b | StateText(a) == StateText(b) ensures a == b { assert StateText(a)[0] == StateText(b)[0]; }
    forall a, b | PlanText(a) == PlanText(b) ensures a == b { assert PlanText(a)[0] == PlanText(b)[0]; }
  }

  lemma ProposalTextsTell(a: Proposal, b: Proposal)
    requires ProposalTexts(a) == ProposalTexts(b)
    ensures a == b
  {
    var x, y := ProposalTexts(a), ProposalTexts(b);
    assert x[0] == y[0] && x[1] == y[1] && x[2] == y[2];
    assert x[0][0] == y[0][0];
  }

  lemma OutcomeTells(a: ControlRequest, b: ControlRequest)
    requires Outcome(a) == Outcome(b)
    ensures a.createdAt == b.createdAt && a.expiresAt == b.expiresAt && a.resolvedAt == b.resolvedAt && a.decision == b.decision
    ensures a.feedback == b.feedback && a.updatedInput == b.updatedInput && a.answer == b.answer && a.cancelReason == b.cancelReason
  {
    hide IntName, TimeText, MadeText, OptionText;
    LettersTell();
    var x, y := Outcome(a), Outcome(b);
    assert x[0] == y[0] && x[1] == y[1] && x[2] == y[2] && x[3] == y[3] && x[4] == y[4] && x[5] == y[5] && x[6] == y[6] && x[7] == y[7];
    IntNameTells(a.createdAt, b.createdAt);
    IntNameTells(a.expiresAt, b.expiresAt);
    TimeTextTells(a.resolvedAt, b.resolvedAt);
    OptionTextTells(a.feedback, b.feedback);
    OptionTextTells(a.updatedInput, b.updatedInput);
    OptionTextTells(a.answer, b.answer);
    OptionTextTells(a.cancelReason, b.cancelReason);
  }

  lemma WhoAndWhatTells(a: ControlRequest, b: ControlRequest)
    requires WhoAndWhat(a) == WhoAndWhat(b)
    ensures a.requestId == b.requestId && a.kind == b.kind && a.state == b.state && a.sessionKey == b.sessionKey
    ensures a.turnId == b.turnId && a.prompt == b.prompt
  {
    hide KindText, StateText, OptionText;
    LettersTell();
    var x, y := WhoAndWhat(a), WhoAndWhat(b);
    assert x[0] == y[0] && x[1] == y[1] && x[2] == y[2] && x[3] == y[3] && x[4] == y[4] && x[5] == y[5];
    OptionTextTells(a.turnId, b.turnId);
  }

  lemma Pieces(a: seq<string>, x: seq<string>, b: seq<string>, y: seq<string>)
    requires |a| == |b| && a + x == b + y
    ensures a == b && x == y
  {
    assert a == (a + x)[..|a|] == (b + y)[..|b|] == b;
    assert x == (a + x)[|a|..] == (b + y)[|b|..] == y;
  }

  lemma RequestTextsTell(a: ControlRequest, b: ControlRequest)
    requires RequestTexts(a) == RequestTexts(b)
    ensures a == b
  {
    assert |WhoAndWhat(a)| == |WhoAndWhat(b)|;
    hide WhoAndWhat, Outcome, ProposalTexts;
    Pieces(WhoAndWhat(a) + ProposalTexts(a.proposedInput), Outcome(a), WhoAndWhat(b) + ProposalTexts(b.proposedInput), Outcome(b));
    Pieces(WhoAndWhat(a), ProposalTexts(a.proposedInput), WhoAndWhat(b), ProposalTexts(b.proposedInput));
    WhoAndWhatTells(a, b);
    ProposalTextsTell(a.proposedInput, b.proposedInput);
    OutcomeTells(a, b);
  }

  function Letter(b: EventBody): char {
    match b
    case Retry(_) => 'a' case RequestCreated(_, _) => 'b' case RequestResolved(_, _, _, _, _) => 'c'
    case RequestCancelled(_, _) => 'd' case RequestTimedOut(_) => 'e' case PlanLifecycle(_, _, _, _, _) => 'f'
    case TaskBoardSnapshot(_) => 'g' case Verification(_, _) => 'h' case StopReason(_, _) => 'i' case ChildStarted(_, _) => 'j'
    case ChildActivity(_) => 'k' case ChildCancelled(_, _) => 'l' case ChildFailed(_, _) => 'm' case ChildCompleted(_, _) => 'n'
    case OtherEvent(_) => 'o'
  }

  lemma FirstIsLetter(b: EventBody)
    ensures BodyTexts(b)[0] == [Letter(b)]
  {
    hide RequestTexts, OptionText;
  }

  lemma BodyTextsTell(a: EventBody, b: EventBody)
    requires BodyTexts(a) == BodyTexts(b)
    ensures a == b
  {
    FirstIsLetter(a);
    FirstIsLetter(b);
    assert Letter(a) == [Letter(a)][0] == [Letter(b)][0] == Letter(b);
    if a.RequestCreated? {
      CreatedTexts(a, b);
    } else {
      OtherTexts(a, b);
    }
  }

  lemma CreatedTexts(a: EventBody, b: EventBody)
    requires a.RequestCreated? && b.RequestCreated? && BodyTexts(a) == BodyTexts(b)
    ensures a == b
  {
    hide RequestTexts, OptionText;
    Pieces(["b", OptionText(a.idempotencyKey)], RequestTexts(a.request), ["b", OptionText(b.idempotencyKey)], RequestTexts(b.request));
    assert OptionText(a.idempotencyKey) == ["b", OptionText(a.idempotencyKey)][1] == ["b", OptionText(b.idempotencyKey)][1];
    OptionTextTells(a.idempotencyKey, b.idempotencyKey);
    RequestTextsTell(a.request, b.request);
  }

  lemma OtherTexts(a: EventBody, b: EventBody)
    requires Letter(a) == Letter(b) && !a.RequestCreated? && BodyTexts(a) == BodyTexts(b)
    ensures a == b
  {
    hide OptionText, DecisionText, PlanText, RequestTexts;
    LettersTell();
    var x, y := BodyTexts(a), BodyTexts(b);
    assert |x| == |y| && x[1] == y[1] && (|x| > 2 ==> x[2] == y[2]) && (|x| == 6 ==> x[3] == y[3] && x[4] == y[4] && x[5] == y[5]);
    match a {
      case RequestResolved(_, _, feedback, input, answer) =>
        OptionTextTells(feedback, b.feedback);
        OptionTextTells(input, b.updatedInput);
        OptionTextTells(answer, b.answer);
      case PlanLifecycle(_, _, request, plan, feedback) =>
        OptionTextTells(request, b.planRequest);
        OptionTextTells(plan, b.plan);
        OptionTextTells(feedback, b.planFeedback);
      case Verification(_, reason) => OptionTextTells(reason, b.verificationReason);
      case ChildStarted(_, parent) => OptionTextTells(parent, b.parentTurnId);
      case ChildCompleted(_, summary) => OptionTextTells(summary, b.summary);
      case _ =>
    }
  }

  lemma EventTextsTell(a: ControlEvent, b: ControlEvent)
    requires EventTexts(a) == EventTexts(b)
    ensures a == b
  {
    hide IntName, OptionText, BodyTexts;
    var x := [a.eventId, IntName(a.seqNo), IntName(a.ts), a.sessionKey, OptionText(a.turnId)];
    var y := [b.eventId, IntName(b.seqNo), IntName(b.ts), b.sessionKey, OptionText(b.turnId)];
    Pieces(x, BodyTexts(a.body), y, BodyTexts(b.body));
    assert x[0] == y[0] && x[1] == y[1] && x[2] == y[2] && x[3] == y[3] && x[4] == y[4];
    IntNameTells(a.seqNo, b.seqNo);
    IntNameTells(a.ts, b.ts);
    OptionTextTells(a.turnId, b.turnId);
    BodyTextsTell(a.body, b.body);
  }

  /** The law the ledger assumes of JSON text is met by some codec of control events. */
  lemma LawfulCodecExists()
    ensures exists c: Codec<ControlEvent> :: Lawful(c)
  {
    hide ListName, EventTexts;
    forall d, e | EventName(d) == EventName(e) ensures d == e {
      ListNameTells(EventTexts(d), EventTexts(e));
      EventTextsTell(d, e);
    }
    hide EventName;
    BracedIsLawful(EventName);
    hide Lawful, NothingInFront;
    var c := BracedCodec(EventName);
  }
}
