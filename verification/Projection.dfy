/** The fold of src/control/ControlProjection.ts over the control events, and its expiry pass. */
module Projection {
  import opened Outcomes
  import opened ControlEvents

  datatype PlanView = PlanView(
    planId: string, state: PlanState, turnId: Option<string>, requestId: Option<string>, plan: Option<string>, feedback: Option<string>)

  datatype ChildState = ChildRunning | ChildWasCancelled | ChildHasFailed | ChildHasCompleted

  datatype ChildView = ChildView(
    taskId: string, state: ChildState, parentTurnId: Option<string>, lastEventSeq: int, summary: Option<string>, errorMessage: Option<string>)

  /** `order` lists the keys of `requests` as first inserted, the order Object.values gives them. */
  datatype ControlProjection = ControlProjection(
    lastSeq: int,
    pendingRequests: seq<ControlRequest>,
    requests: map<string, ControlRequest>,
    order: seq<string>,
    activePlan: Option<PlanView>,
    taskBoard: Option<string>,
    verification: Option<ControlEvent>,
    retryCounts: map<string, nat>,
    lastStopReasonByTurn: map<string, string>,
    childAgents: map<string, ChildView>)

  const EMPTY: ControlProjection := ControlProjection(0, [], map[], [], None, None, None, map[], map[], map[])

  // ---- One event

  function StateOf(d: Decision): RequestState {
    match d
    case Approve => Approved
    case Deny => Denied
    case Answer => Answered
  }

  /** A pending request after the terminal event `e`. */
  function Settle(r: ControlRequest, e: ControlEvent): ControlRequest {
    match e.body
    case RequestResolved(_, decision, feedback, updatedInput, answer) =>
      r.(state := StateOf(decision), resolvedAt := Some(e.ts), decision := Some(decision),
         feedback := feedback, updatedInput := updatedInput, answer := answer)
    case RequestCancelled(_, reason) =>
      r.(state := Cancelled, resolvedAt := Some(e.ts), cancelReason := Some(reason))
    case RequestTimedOut(_) =>
      r.(state := TimedOut, resolvedAt := Some(e.ts))
    case _ => r
  }

  function SettleIn(p: ControlProjection, id: string, e: ControlEvent): ControlProjection {
    if id !in p.requests || p.requests[id].state != Pending then p
    else p.(requests := p.requests[id := Settle(p.requests[id], e)])
  }

  function ChildOr(children: map<string, ChildView>, taskId: string, seqNo: int): ChildView {
    if taskId in children then children[taskId] else ChildView(taskId, ChildRunning, None, seqNo, None, None)
  }

  /** The cases of the child agents; other events leave them alone. */
  function ApplyChild(children: map<string, ChildView>, e: ControlEvent): map<string, ChildView> {
    match e.body
    case ChildStarted(task, parent) =>
      children[task := ChildView(task, ChildRunning, parent, e.seqNo, None, None)]
    case ChildActivity(task) =>
      if task in children then children[task := children[task].(lastEventSeq := e.seqNo)] else children
    case ChildCancelled(task, reason) =>
      children[task := ChildOr(children, task, e.seqNo).(state := ChildWasCancelled, lastEventSeq := e.seqNo, errorMessage := Some(reason))]
    case ChildFailed(task, message) =>
      children[task := ChildOr(children, task, e.seqNo).(state := ChildHasFailed, lastEventSeq := e.seqNo, errorMessage := Some(message))]
    case ChildCompleted(task, summary) =>
      children[task := ChildOr(children, task, e.seqNo).(state := ChildHasCompleted, lastEventSeq := e.seqNo, summary := summary)]
    case _ => children
  }

  /** The loop body of `projectControlEvents`. */
  function Apply(p0: ControlProjection, e: ControlEvent): ControlProjection {
    var p := p0.(lastSeq := if e.seqNo > p0.lastSeq then e.seqNo else p0.lastSeq);
    match e.body
    case Retry(turn) =>
      p.(retryCounts := p.retryCounts[turn := (if turn in p.retryCounts then p.retryCounts[turn] else 0) + 1])
    case RequestCreated(request, _) =>
      p.(requests := p.requests[request.requestId := request],
         order := if request.requestId in p.requests then p.order else p.order + [request.requestId])
    case RequestResolved(id, _, _, _, _) => SettleIn(p, id, e)
    case RequestCancelled(id, _) => SettleIn(p, id, e)
    case RequestTimedOut(id) => SettleIn(p, id, e)
    case PlanLifecycle(planId, state, request, plan, feedback) =>
      p.(activePlan := Some(PlanView(planId, state, e.turnId, request, plan, feedback)))
    case TaskBoardSnapshot(board) => p.(taskBoard := Some(board))
    case Verification(_, _) => p.(verification := Some(e))
    case StopReason(turn, reason) => p.(lastStopReasonByTurn := p.lastStopReasonByTurn[turn := reason])
    case _ => p.(childAgents := ApplyChild(p.childAgents, e))
  }

  function Fold(events: seq<ControlEvent>): ControlProjection {
    FoldFrom(EMPTY, events)
  }

  function FoldFrom(p: ControlProjection, events: seq<ControlEvent>): ControlProjection {
    if events == [] then p else Apply(FoldFrom(p, events[..|events| - 1]), events[|events| - 1])
  }

  // ---- Expiry

  /** A request as a reader at time `now` sees it. */
  function SeenAt(r: ControlRequest, now: int): ControlRequest {
    if r.state == Pending && r.expiresAt <= now then r.(state := TimedOut, resolvedAt := Some(r.expiresAt)) else r
  }

  function ExpiredMap(m: map<string, ControlRequest>, now: int): map<string, ControlRequest> {
    map id | id in m :: SeenAt(m[id], now)
  }

  function PendingIn(m: map<string, ControlRequest>, order: seq<string>): seq<ControlRequest> {
    if order == [] then []
    else
      var id := order[|order| - 1];
      PendingIn(m, order[..|order| - 1]) + (if id in m && m[id].state == Pending then [m[id]] else [])
  }

  function Expire(p: ControlProjection, now: int): ControlProjection {
    var m := ExpiredMap(p.requests, now);
    p.(requests := m, pendingRequests := PendingIn(m, p.order))
  }

  /** What `projectControlEvents(events, { now })` returns. */
  function Project(events: seq<ControlEvent>, now: int): ControlProjection {
    Expire(Fold(events), now)
  }

  /** The second loop of `projectControlEvents`. */
  method ExpireRequests(folded: ControlProjection, now: int) returns (m: map<string, ControlRequest>)
    requires Ordered(folded)
    ensures m == ExpiredMap(folded.requests, now)
  {
    hide SeenAt;
    m := folded.requests;
    var order := folded.order;
    for i := 0 to |order|
      invariant m.Keys == folded.requests.Keys
      invariant forall k :: 0 <= k < i ==> m[order[k]] == SeenAt(folded.requests[order[k]], now)
      invariant forall k :: i <= k < |order| ==> m[order[k]] == folded.requests[order[k]]
    {
      var id := order[i];
      var request := m[id];
      SeenAtIs(request, now);
      if request.state == Pending && request.expiresAt <= now {
        m := m[id := request.(state := TimedOut, resolvedAt := Some(request.expiresAt))];
      }
    }
    forall id | id in m ensures m[id] == SeenAt(folded.requests[id], now) {
      var k :| 0 <= k < |order| && order[k] == id;
      assert m[order[k]] == SeenAt(folded.requests[order[k]], now);
    }
  }

  lemma SeenAtIs(r: ControlRequest, now: int)
    ensures SeenAt(r, now) ==
            if r.state == Pending && r.expiresAt <= now then r.(state := TimedOut, resolvedAt := Some(r.expiresAt)) else r
  {
  }

  /** The expiry pass, and the list `projectControlEvents` ends with. */
  method ExpirePending(folded: ControlProjection, now: int) returns (projection: ControlProjection)
    requires Ordered(folded)
    ensures projection == Expire(folded, now)
  {
    hide PendingIn, SeenAt;
    var m := ExpireRequests(folded, now);
    var pending := ListPending(m, folded.order);
    projection := folded.(requests := m, pendingRequests := pending);
  }

  method ListPending(m: map<string, ControlRequest>, order: seq<string>) returns (pending: seq<ControlRequest>)
    requires forall k :: 0 <= k < |order| ==> order[k] in m
    ensures pending == PendingIn(m, order)
  {
    pending := [];
    for i := 0 to |order|
      invariant pending == PendingIn(m, order[..i])
    {
      assert order[..i + 1][..i] == order[..i];
      if m[order[i]].state == Pending {
        pending := pending + [m[order[i]]];
      }
    }
    assert order[..|order|] == order;
  }

  method ProjectControlEvents(events: seq<ControlEvent>, now: int) returns (projection: ControlProjection)
    ensures projection == Project(events, now)
  {
    hide Apply;
    projection := EMPTY;
    for i := 0 to |events|
      invariant projection == Fold(events[..i])
    {
      assert events[..i + 1][..i] == events[..i];
      projection := Apply(projection, events[i]);
    }
    assert events[..|events|] == events;
    FoldKeepsOrder(events);
    projection := ExpirePending(projection, now);
  }

  // ---- The fold is incremental

  lemma {:induction false} FoldIsIncremental(p: ControlProjection, a: seq<ControlEvent>, b: seq<ControlEvent>)
    ensures FoldFrom(p, a + b) == FoldFrom(FoldFrom(p, a), b)
  {
    hide Apply;
    if b == [] {
      assert a + b == a;
    } else {
      FoldIsIncremental(p, a, b[..|b| - 1]);
      assert (a + b)[..|a + b| - 1] == a + b[..|b| - 1];
    }
  }

  /** Keys are listed once each, under the id of their record. */
  ghost predicate Ordered(p: ControlProjection) {
    && (forall id :: id in p.requests ==> p.requests[id].requestId == id && id in p.order)
    && (forall id :: id in p.order ==> id in p.requests)
    && (forall i, j :: 0 <= i < j < |p.order| ==> p.order[i] != p.order[j])
  }

  /** What an event does to the request records and their keys. */
  lemma ApplyToRequests(p: ControlProjection, e: ControlEvent)
    ensures var q := Apply(p, e);
            match e.body
            case RequestCreated(r, _) =>
              && q.requests == p.requests[r.requestId := r]
              && q.order == if r.requestId in p.requests then p.order else p.order + [r.requestId]
            case RequestResolved(id, _, _, _, _) => q == SettleIn(q.(requests := p.requests), id, e) && q.order == p.order
            case RequestCancelled(id, _) => q == SettleIn(q.(requests := p.requests), id, e) && q.order == p.order
            case RequestTimedOut(id) => q == SettleIn(q.(requests := p.requests), id, e) && q.order == p.order
            case _ => q.requests == p.requests && q.order == p.order
  {
  }

  lemma CreationKeepsOrder(p: ControlProjection, q: ControlProjection, r: ControlRequest)
    requires Ordered(p) && q.requests == p.requests[r.requestId := r]
    requires q.order == if r.requestId in p.requests then p.order else p.order + [r.requestId]
    ensures Ordered(q)
  {
  }

  lemma SettlingKeepsOrder(p: ControlProjection, q: ControlProjection, id: string, e: ControlEvent)
    requires Ordered(p) && q.order == p.order && q == SettleIn(q.(requests := p.requests), id, e)
    ensures Ordered(q)
  {
  }

  lemma ApplyKeepsOrder(p: ControlProjection, e: ControlEvent)
    requires Ordered(p)
    ensures Ordered(Apply(p, e))
  {
    ApplyToRequests(p, e);
    hide Apply, SettleIn;
    var q := Apply(p, e);
    match e.body {
      case RequestCreated(r, _) => CreationKeepsOrder(p, q, r);
      case RequestResolved(id, _, _, _, _) => SettlingKeepsOrder(p, q, id, e);
      case RequestCancelled(id, _) => SettlingKeepsOrder(p, q, id, e);
      case RequestTimedOut(id) => SettlingKeepsOrder(p, q, id, e);
      case _ =>
    }
  }

  lemma {:induction false} FoldKeepsOrder(events: seq<ControlEvent>)
    ensures Ordered(Fold(events))
  {
    if events != [] {
      hide Apply;
      FoldKeepsOrder(events[..|events| - 1]);
      ApplyKeepsOrder(Fold(events[..|events| - 1]), events[|events| - 1]);
    }
  }

  // ---- A request is decided by the first terminal event after its creation

  /** The index of the last event that creates the request. */
  function LastCreation(events: seq<ControlEvent>, id: string): (k: Option<nat>)
    ensures k.Some? ==> k.value < |events| && Creates(events[k.value].body, id)
    ensures k.Some? ==> forall j :: k.value < j < |events| ==> !Creates(events[j].body, id)
    ensures k.None? ==> forall j :: 0 <= j < |events| ==> !Creates(events[j].body, id)
  {
    if events == [] then None
    else if Creates(events[|events| - 1].body, id) then Some(|events| - 1)
    else LastCreation(events[..|events| - 1], id)
  }

  /** The index of the first terminal event for the request from `from` on. */
  function FirstTerminal(events: seq<ControlEvent>, id: string, from: nat): (k: Option<nat>)
    requires from <= |events|
    ensures k.Some? ==> from <= k.value < |events| && IsTerminalFor(events[k.value].body, id)
    ensures k.Some? ==> forall j :: from <= j < k.value ==> !IsTerminalFor(events[j].body, id)
    ensures k.None? ==> forall j :: from <= j < |events| ==> !IsTerminalFor(events[j].body, id)
    decreases |events| - from
  {
    if from == |events| then None
    else if IsTerminalFor(events[from].body, id) then Some(from)
    else FirstTerminal(events, id, from + 1)
  }

  /** The record the events fix for a request, without folding. */
  function Decided(events: seq<ControlEvent>, id: string): Option<ControlRequest> {
    match LastCreation(events, id)
    case None => None
    case Some(k) =>
      var created := events[k].body.request;
      if created.state != Pending then Some(created)
      else match FirstTerminal(events, id, k + 1)
        case None => Some(created)
        case Some(j) => Some(Settle(created, events[j]))
  }

  function Lookup(p: ControlProjection, id: string): Option<ControlRequest> {
    if id in p.requests then Some(p.requests[id]) else None
  }

  lemma ApplyToRequest(p: ControlProjection, e: ControlEvent, id: string)
    ensures Lookup(Apply(p, e), id) ==
            if Creates(e.body, id) then Some(e.body.request)
            else if IsTerminalFor(e.body, id) && id in p.requests && p.requests[id].state == Pending
              then Some(Settle(p.requests[id], e))
            else Lookup(p, id)
  {
  }

  lemma SettledIsNotPending(r: ControlRequest, e: ControlEvent, id: string)
    requires IsTerminalFor(e.body, id)
    ensures Settle(r, e).state != Pending
  {
  }

  lemma FirstTerminalOfMore(events: seq<ControlEvent>, e: ControlEvent, id: string, from: nat)
    requires from <= |events|
    ensures FirstTerminal(events + [e], id, from) ==
            if FirstTerminal(events, id, from).Some? then FirstTerminal(events, id, from)
            else if IsTerminalFor(e.body, id) then Some(|events|) else None
  {
    var more := events + [e];
    var k, k' := FirstTerminal(events, id, from), FirstTerminal(more, id, from);
    assert forall j :: 0 <= j < |events| ==> more[j] == events[j];
    assert more[|events|] == e;
  }

  /** What one more event changes about a request's decided record. */
  lemma DecidedOfMore(before: seq<ControlEvent>, e: ControlEvent, id: string)
    ensures Decided(before + [e], id) ==
            if Creates(e.body, id) then Some(e.body.request)
            else match Decided(before, id)
              case None => None
              case Some(r) => Some(if r.state == Pending && IsTerminalFor(e.body, id) then Settle(r, e) else r)
  {
    hide Settle, FirstTerminal, IsTerminalFor, LastCreation;
    var events := before + [e];
    LastCreationOfMore(before, e, id);
    if Creates(e.body, id) {
      FirstTerminalAtEnd(events, id);
    } else if LastCreation(before, id).Some? {
      var k := LastCreation(before, id).value;
      FirstTerminalOfMore(before, e, id, k + 1);
      var j := FirstTerminal(before, id, k + 1);
      assert events[k] == before[k];
      if j.Some? {
        assert events[j.value] == before[j.value];
        SettledIsNotPending(before[k].body.request, before[j.value], id);
      }
    }
  }

  lemma LastCreationOfMore(before: seq<ControlEvent>, e: ControlEvent, id: string)
    ensures LastCreation(before + [e], id) == if Creates(e.body, id) then Some(|before|) else LastCreation(before, id)
  {
    assert (before + [e])[..|before|] == before;
    hide Creates;
  }

  lemma NothingFolded(id: string)
    ensures Fold([]) == EMPTY && Lookup(EMPTY, id) == None && Decided([], id) == None
  {
  }

  /** The fold finds what the first terminal event after the last creation decides. */
  lemma {:induction false} FoldIsDecided(events: seq<ControlEvent>, id: string)
    ensures Lookup(Fold(events), id) == Decided(events, id)
  {
    if events == [] {
      NothingFolded(id);
    } else {
      hide Apply, Settle, Fold, Decided, IsTerminalFor;
      var before, e := events[..|events| - 1], events[|events| - 1];
      assert before + [e] == events;
      FoldIsDecided(before, id);
      FoldOfMore(before, e);
      ApplyToRequest(Fold(before), e, id);
      DecidedOfMore(before, e, id);
    }
  }

  lemma FirstTerminalAtEnd(events: seq<ControlEvent>, id: string)
    ensures FirstTerminal(events, id, |events|) == None
  {
  }

  /** A request that has left `pending` keeps its record until its id is created again. */
  lemma {:induction false} PendingIsLeftOnce(a: seq<ControlEvent>, b: seq<ControlEvent>, id: string)
    requires id in Fold(a).requests && Fold(a).requests[id].state != Pending
    requires forall j :: 0 <= j < |b| ==> !Creates(b[j].body, id)
    ensures Lookup(Fold(a + b), id) == Lookup(Fold(a), id)
  {
    hide Apply, Fold, Settle;
    if b == [] {
      assert a + b == a;
    } else {
      var b', e := b[..|b| - 1], b[|b| - 1];
      PendingIsLeftOnce(a, b', id);
      assert a + b == (a + b') + [e];
      FoldOfMore(a + b', e);
      ApplyToRequest(Fold(a + b'), e, id);
    }
  }

  lemma FoldOfMore(events: seq<ControlEvent>, e: ControlEvent)
    ensures Fold(events + [e]) == Apply(Fold(events), e)
  {
    assert (events + [e])[..|events|] == events;
    hide Apply;
  }

  // ---- Pending requests

  lemma {:induction false} PendingInIsExact(m: map<string, ControlRequest>, order: seq<string>, r: ControlRequest)
    ensures r in PendingIn(m, order) <==> exists id :: id in order && id in m && m[id] == r && r.state == Pending
  {
    if order != [] {
      var last := order[|order| - 1];
      PendingInIsExact(m, order[..|order| - 1], r);
      assert order == order[..|order| - 1] + [last];
      if r in PendingIn(m, order) {
        if r in PendingIn(m, order[..|order| - 1]) {
          var id :| id in order[..|order| - 1] && id in m && m[id] == r && r.state == Pending;
          assert id in order;
        } else {
          assert last in order && m[last] == r;
        }
      }
    }
  }

  /** `pendingRequests` holds exactly the requests no event has decided and no deadline has passed. */
  lemma PendingRequestsAreExact(events: seq<ControlEvent>, now: int, r: ControlRequest)
    ensures r in Project(events, now).pendingRequests <==>
            Decided(events, r.requestId) == Some(r) && r.state == Pending && now < r.expiresAt
  {
    var p := Fold(events);
    var m := ExpiredMap(p.requests, now);
    FoldKeepsOrder(events);
    FoldIsDecided(events, r.requestId);
    PendingInIsExact(m, p.order, r);
    hide FoldFrom, Decided;
    if r in PendingIn(m, p.order) {
      var id :| id in p.order && id in m && m[id] == r && r.state == Pending;
      assert p.requests[id] == r && r.requestId == id;
    }
    if Decided(events, r.requestId) == Some(r) && r.state == Pending && now < r.expiresAt {
      assert r.requestId in p.order && m[r.requestId] == r;
    }
  }

  /** What a reader at `now` finds under an id. */
  lemma ProjectedRequest(events: seq<ControlEvent>, now: int, id: string)
    ensures Lookup(Project(events, now), id) ==
            match Decided(events, id) case None => None case Some(r) => Some(SeenAt(r, now))
  {
    FoldIsDecided(events, id);
    hide FoldFrom, Decided;
  }

  // ---- The other fields

  function RetriesOf(events: seq<ControlEvent>, turn: string): nat {
    if events == [] then 0
    else RetriesOf(events[..|events| - 1], turn) + (if events[|events| - 1].body == Retry(turn) then 1 else 0)
  }

  function RetryCount(p: ControlProjection, turn: string): nat {
    if turn in p.retryCounts then p.retryCounts[turn] else 0
  }

  lemma ApplyToTallies(p: ControlProjection, e: ControlEvent, turn: string)
    ensures RetryCount(Apply(p, e), turn) == RetryCount(p, turn) + (if e.body == Retry(turn) then 1 else 0)
    ensures Apply(p, e).lastSeq == if e.seqNo > p.lastSeq then e.seqNo else p.lastSeq
  {
  }

  /** Retries are counted per turn, and `lastSeq` is the largest sequence number seen. */
  lemma {:induction false} TalliesAreExact(events: seq<ControlEvent>, turn: string)
    ensures RetryCount(Fold(events), turn) == RetriesOf(events, turn)
    ensures forall e :: e in events ==> e.seqNo <= Fold(events).lastSeq
    ensures Fold(events).lastSeq == 0 || exists e :: e in events && e.seqNo == Fold(events).lastSeq
  {
    if events != [] {
      var before, e := events[..|events| - 1], events[|events| - 1];
      TalliesAreExact(before, turn);
      ApplyToTallies(Fold(before), e, turn);
      hide Apply;
      assert events == before + [e];
      assert e in events;
    }
  }

  /** Plan events are shown by the latest one. */
  lemma {:induction false} ActivePlanIsLatest(events: seq<ControlEvent>, k: nat)
    requires k < |events| && events[k].body.PlanLifecycle?
    requires forall j :: k < j < |events| ==> !events[j].body.PlanLifecycle?
    ensures var b := events[k].body;
            Fold(events).activePlan == Some(PlanView(b.planId, b.planState, events[k].turnId, b.planRequest, b.plan, b.planFeedback))
  {
    var before := events[..|events| - 1];
    if k < |events| - 1 {
      ActivePlanIsLatest(before, k);
      OnlyPlansTouchThePlan(Fold(before), events[|events| - 1]);
    }
  }

  lemma OnlyPlansTouchThePlan(p: ControlProjection, e: ControlEvent)
    requires !e.body.PlanLifecycle?
    ensures Apply(p, e).activePlan == p.activePlan
  {
  }

  /** The state a lifecycle event gives a child agent. */
  function ChildStateBy(body: EventBody, task: string): Option<ChildState> {
    match body
    case ChildStarted(id, _) => if id == task then Some(ChildRunning) else None
    case ChildCancelled(id, _) => if id == task then Some(ChildWasCancelled) else None
    case ChildFailed(id, _) => if id == task then Some(ChildHasFailed) else None
    case ChildCompleted(id, _) => if id == task then Some(ChildHasCompleted) else None
    case _ => None
  }

  function ChildStateOf(p: ControlProjection, task: string): Option<ChildState> {
    if task in p.childAgents then Some(p.childAgents[task].state) else None
  }

  lemma ApplyToChild(p: ControlProjection, e: ControlEvent, task: string)
    ensures ChildStateOf(Apply(p, e), task) ==
            if ChildStateBy(e.body, task).Some? then ChildStateBy(e.body, task) else ChildStateOf(p, task)
  {
    ChildrenOf(p, e);
    hide Apply;
  }

  lemma ChildrenOf(p: ControlProjection, e: ControlEvent)
    ensures Apply(p, e).childAgents == ApplyChild(p.childAgents, e)
  {
  }

  /** The state the latest lifecycle event of a child agent gives it. */
  function LatestChildState(events: seq<ControlEvent>, task: string): Option<ChildState> {
    if events == [] then None
    else
      var state := ChildStateBy(events[|events| - 1].body, task);
      if state.Some? then state else LatestChildState(events[..|events| - 1], task)
  }

  /** A child agent is in the state of its latest lifecycle event; activity alone adds no child. */
  lemma {:induction false} ChildStateIsLatest(events: seq<ControlEvent>, task: string)
    ensures ChildStateOf(Fold(events), task) == LatestChildState(events, task)
  {
    if events != [] {
      hide Apply;
      ChildStateIsLatest(events[..|events| - 1], task);
      ApplyToChild(Fold(events[..|events| - 1]), events[|events| - 1], task);
    }
  }

  lemma ApplyToSnapshots(p: ControlProjection, e: ControlEvent)
    ensures Apply(p, e).taskBoard == if e.body.TaskBoardSnapshot? then Some(e.body.taskBoard) else p.taskBoard
    ensures Apply(p, e).verification == if e.body.Verification? then Some(e) else p.verification
  {
  }

  lemma ApplyToStops(p: ControlProjection, e: ControlEvent)
    ensures Apply(p, e).lastStopReasonByTurn ==
            if e.body.StopReason? then p.lastStopReasonByTurn[e.body.stopTurn := e.body.stopReason] else p.lastStopReasonByTurn
  {
  }

  /** Event `k` is the last of its kind; stop reasons count by turn. */
  ghost predicate LastTaskBoard(events: seq<ControlEvent>, k: nat) {
    k < |events| && events[k].body.TaskBoardSnapshot? && forall j :: k < j < |events| ==> !events[j].body.TaskBoardSnapshot?
  }

  ghost predicate LastVerification(events: seq<ControlEvent>, k: nat) {
    k < |events| && events[k].body.Verification? && forall j :: k < j < |events| ==> !events[j].body.Verification?
  }

  ghost predicate LastStop(events: seq<ControlEvent>, k: nat) {
    && k < |events| && events[k].body.StopReason?
    && forall j :: k < j < |events| && events[j].body.StopReason? ==> events[j].body.stopTurn != events[k].body.stopTurn
  }

  /** The task board, the verification and each turn's stop reason are those of the last event of their kind. */
  lemma {:induction false} SnapshotsAreLatest(events: seq<ControlEvent>, k: nat)
    ensures LastTaskBoard(events, k) ==> Fold(events).taskBoard == Some(events[k].body.taskBoard)
    ensures LastVerification(events, k) ==> Fold(events).verification == Some(events[k])
    ensures LastStop(events, k) ==>
              var m := Fold(events).lastStopReasonByTurn;
              events[k].body.stopTurn in m && m[events[k].body.stopTurn] == events[k].body.stopReason
  {
    if events != [] {
      hide Apply, Fold;
      var front, e := events[..|events| - 1], events[|events| - 1];
      assert front + [e] == events;
      FoldOfMore(front, e);
      ApplyToSnapshots(Fold(front), e);
      ApplyToStops(Fold(front), e);
      SnapshotsAreLatest(front, k);
    }
  }
}
