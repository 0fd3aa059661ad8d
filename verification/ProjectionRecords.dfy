/** What the records and lists of src/control/ControlProjection.ts hold, beyond one request. */
module ProjectionRecords {
  import opened Outcomes
  import opened ControlEvents
  import opened Projection

  // ---- The list of pending requests

  /** The index of the first event that creates the request, or the number of events. */
  function FirstCreation(events: seq<ControlEvent>, id: string): (k: nat)
    ensures k <= |events|
    ensures k < |events| ==> Creates(events[k].body, id)
    ensures forall j :: 0 <= j < k ==> !Creates(events[j].body, id)
  {
    if events == [] then 0
    else
      var k := FirstCreation(events[..|events| - 1], id);
      if k < |events| - 1 || Creates(events[k].body, id) then k else |events|
  }

  /** Keys are kept in the order of their first creation. */
  ghost predicate InOrderOfCreation(events: seq<ControlEvent>, order: seq<string>) {
    && (forall i :: 0 <= i < |order| ==> FirstCreation(events, order[i]) < |events|)
    && forall i, j :: 0 <= i < j < |order| ==> FirstCreation(events, order[i]) < FirstCreation(events, order[j])
  }

  lemma FirstCreationStays(events: seq<ControlEvent>, e: ControlEvent, id: string)
    ensures FirstCreation(events, id) < |events| ==> FirstCreation(events + [e], id) == FirstCreation(events, id)
    ensures FirstCreation(events, id) == |events| ==>
              FirstCreation(events + [e], id) == if Creates(e.body, id) then |events| else |events| + 1
  {
    assert (events + [e])[..|events|] == events;
  }

  lemma OrderStays(events: seq<ControlEvent>, e: ControlEvent, order: seq<string>)
    requires InOrderOfCreation(events, order)
    ensures InOrderOfCreation(events + [e], order)
  {
    hide FirstCreation;
    forall i | 0 <= i < |order| ensures FirstCreation(events + [e], order[i]) == FirstCreation(events, order[i]) {
      FirstCreationStays(events, e, order[i]);
    }
  }

  lemma OrderGains(events: seq<ControlEvent>, e: ControlEvent, order: seq<string>, id: string)
    requires InOrderOfCreation(events, order) && Creates(e.body, id) && FirstCreation(events, id) == |events|
    ensures InOrderOfCreation(events + [e], order + [id])
  {
    hide FirstCreation;
    OrderStays(events, e, order);
    FirstCreationStays(events, e, id);
    var more := order + [id];
    forall i | 0 <= i < |more| ensures FirstCreation(events + [e], more[i]) == if i < |order| then FirstCreation(events, order[i]) else |events| {
      if i < |order| { FirstCreationStays(events, e, order[i]); }
    }
  }

  /** An id is a key exactly once an event has created it. */
  ghost predicate IsKeyOnceCreated(events: seq<ControlEvent>, id: string) {
    id in Fold(events).requests <==> FirstCreation(events, id) < |events|
  }

  lemma {:induction false} KeysAreCreated(events: seq<ControlEvent>, id: string)
    ensures IsKeyOnceCreated(events, id)
  {
    if events != [] {
      hide Apply, Fold, FirstCreation;
      var front, e := events[..|events| - 1], events[|events| - 1];
      assert front + [e] == events;
      KeysAreCreated(front, id);
      FoldOfMore(front, e);
      KeysAfter(Fold(front), Fold(events), e);
      FirstCreationStays(front, e, id);
    } else {
      assert Fold(events) == EMPTY;
    }
  }

  lemma {:induction false} OrderIsOfCreation(events: seq<ControlEvent>)
    ensures InOrderOfCreation(events, Fold(events).order)
  {
    if events != [] {
      hide Apply, Fold, FirstCreation, InOrderOfCreation;
      var front, e := events[..|events| - 1], events[|events| - 1];
      assert front + [e] == events;
      OrderIsOfCreation(front);
      FoldOfMore(front, e);
      KeysAfter(Fold(front), Fold(events), e);
      if e.body.RequestCreated? && e.body.request.requestId !in Fold(front).requests {
        KeysAreCreated(front, e.body.request.requestId);
        OrderGains(front, e, Fold(front).order, e.body.request.requestId);
      } else {
        OrderStays(front, e, Fold(front).order);
      }
    } else {
      assert Fold(events) == EMPTY;
    }
  }

  lemma KeysAfter(p: ControlProjection, q: ControlProjection, e: ControlEvent)
    requires q == Apply(p, e)
    ensures q.requests.Keys == p.requests.Keys + (if e.body.RequestCreated? then {e.body.request.requestId} else {})
    ensures q.order == if e.body.RequestCreated? && e.body.request.requestId !in p.requests then p.order + [e.body.request.requestId] else p.order
  {
    ApplyToRequests(p, e);
    hide Apply, Settle;
  }

  /** `pending` is a part of `order`, in its order. */
  ghost predicate InOrderOf(pending: seq<ControlRequest>, order: seq<string>) {
    forall i, j :: 0 <= i < j < |pending| ==>
      exists a, b :: 0 <= a < b < |order| && order[a] == pending[i].requestId && order[b] == pending[j].requestId
  }

  lemma {:induction false} PendingFollowsOrder(m: map<string, ControlRequest>, order: seq<string>)
    requires forall id :: id in m ==> m[id].requestId == id
    ensures InOrderOf(PendingIn(m, order), order)
    ensures forall r :: r in PendingIn(m, order) ==> r.requestId in order
  {
    if order != [] {
      var front, last := order[..|order| - 1], order[|order| - 1];
      PendingFollowsOrder(m, front);
      var before, after := PendingIn(m, front), PendingIn(m, order);
      assert front + [last] == order;
      forall i, j | 0 <= i < j < |after|
        ensures exists a, b :: 0 <= a < b < |order| && order[a] == after[i].requestId && order[b] == after[j].requestId
      {
        if j < |before| {
          var a, b :| 0 <= a < b < |front| && front[a] == before[i].requestId && front[b] == before[j].requestId;
          assert order[a] == after[i].requestId && order[b] == after[j].requestId;
        } else {
          assert before[i] in before;
          var a :| 0 <= a < |front| && front[a] == before[i].requestId;
          assert order[a] == after[i].requestId && order[|order| - 1] == after[j].requestId;
        }
      }
    }
  }

  /** Each pending request is listed once, in the order in which their ids were first created. */
  lemma PendingAreInOrderOfCreation(events: seq<ControlEvent>, now: int)
    ensures var pending := Project(events, now).pendingRequests;
            forall i, j :: 0 <= i < j < |pending| ==>
              FirstCreation(events, pending[i].requestId) < FirstCreation(events, pending[j].requestId) < |events|
  {
    hide Fold, FirstCreation, PendingIn;
    var p := Fold(events);
    var m := ExpiredMap(p.requests, now);
    FoldKeepsOrder(events);
    OrderIsOfCreation(events);
    PendingFollowsOrder(m, p.order);
    ListedInOrder(events, PendingIn(m, p.order), p.order);
  }

  lemma ListedInOrder(events: seq<ControlEvent>, pending: seq<ControlRequest>, order: seq<string>)
    requires InOrderOf(pending, order) && InOrderOfCreation(events, order)
    ensures forall i, j :: 0 <= i < j < |pending| ==>
              FirstCreation(events, pending[i].requestId) < FirstCreation(events, pending[j].requestId) < |events|
  {
    hide FirstCreation;
    forall i, j | 0 <= i < j < |pending|
      ensures FirstCreation(events, pending[i].requestId) < FirstCreation(events, pending[j].requestId) < |events|
    {
      var a, b :| 0 <= a < b < |order| && order[a] == pending[i].requestId && order[b] == pending[j].requestId;
    }
  }

  // ---- Child agents

  predicate IsOfChild(body: EventBody, task: string) {
    match body
    case ChildStarted(id, _) => id == task
    case ChildActivity(id) => id == task
    case ChildCancelled(id, _) => id == task
    case ChildFailed(id, _) => id == task
    case ChildCompleted(id, _) => id == task
    case _ => false
  }

  predicate Starts(body: EventBody, task: string) {
    body.ChildStarted? && body.taskId == task
  }

  /** The error, the summary and the parent of the latest event that has one, since the child was last started. */
  function LatestError(events: seq<ControlEvent>, task: string): Option<string> {
    if events == [] then None
    else
      var body := events[|events| - 1].body;
      if Starts(body, task) then None
      else if body.ChildCancelled? && body.taskId == task then Some(body.reason)
      else if body.ChildFailed? && body.taskId == task then Some(body.errorMessage)
      else LatestError(events[..|events| - 1], task)
  }

  function LatestSummary(events: seq<ControlEvent>, task: string): Option<string> {
    if events == [] then None
    else
      var body := events[|events| - 1].body;
      if Starts(body, task) then None
      else if body.ChildCompleted? && body.taskId == task then body.summary
      else LatestSummary(events[..|events| - 1], task)
  }

  function LatestParent(events: seq<ControlEvent>, task: string): Option<string> {
    if events == [] then None
    else if Starts(events[|events| - 1].body, task) then events[|events| - 1].body.parentTurnId
    else LatestParent(events[..|events| - 1], task)
  }

  lemma ApplyToChildRecord(p: ControlProjection, e: ControlEvent, task: string)
    ensures var c, d := p.childAgents, Apply(p, e).childAgents;
            && (!IsOfChild(e.body, task) ==> (task in d <==> task in c) && (task in c ==> d[task] == c[task]))
            && (e.body.ChildActivity? && e.body.taskId == task ==>
                  (task in d <==> task in c) && (task in c ==> d[task] == c[task].(lastEventSeq := e.seqNo)))
            && (IsOfChild(e.body, task) && !e.body.ChildActivity? ==>
                  && task in d && d[task].lastEventSeq == e.seqNo
                  && (task !in c || c[task].taskId == task ==> d[task].taskId == task))
    ensures var c, d := p.childAgents, Apply(p, e).childAgents;
            IsOfChild(e.body, task) && !e.body.ChildActivity? ==>
              && d[task].parentTurnId == (if e.body.ChildStarted? then e.body.parentTurnId else if task in c then c[task].parentTurnId else None)
              && d[task].errorMessage == (if e.body.ChildStarted? then None
                                          else if e.body.ChildCancelled? then Some(e.body.reason)
                                          else if e.body.ChildFailed? then Some(e.body.errorMessage)
                                          else if task in c then c[task].errorMessage else None)
              && d[task].summary == (if e.body.ChildStarted? then None
                                     else if e.body.ChildCompleted? then e.body.summary
                                     else if task in c then c[task].summary else None)
  {
    ChildrenOf(p, e);
    hide Apply;
  }

  /** Since its last start a child's record holds its latest error and summary, and the number of its latest event. */
  lemma {:induction false} ChildRecordIsLatest(events: seq<ControlEvent>, task: string)
    ensures var children := Fold(events).childAgents;
            task in children ==>
              && children[task].taskId == task && children[task].parentTurnId == LatestParent(events, task)
              && children[task].errorMessage == LatestError(events, task) && children[task].summary == LatestSummary(events, task)
    ensures task !in Fold(events).childAgents ==>
              LatestParent(events, task) == None && LatestError(events, task) == None && LatestSummary(events, task) == None
  {
    if events != [] {
      hide Apply, Fold;
      var front, e := events[..|events| - 1], events[|events| - 1];
      assert front + [e] == events;
      ChildRecordIsLatest(front, task);
      FoldOfMore(front, e);
      ApplyToChildRecord(Fold(front), e, task);
    } else {
      assert Fold(events) == EMPTY;
    }
  }

  /** That number is its latest event's of any kind, once it is there. */
  lemma {:induction false} ChildSeqIsLatest(events: seq<ControlEvent>, task: string, k: nat)
    requires k < |events| && IsOfChild(events[k].body, task) && task in Fold(events).childAgents
    requires forall j :: k < j < |events| ==> !IsOfChild(events[j].body, task)
    ensures Fold(events).childAgents[task].lastEventSeq == events[k].seqNo
  {
    hide Apply, Fold;
    var front, e := events[..|events| - 1], events[|events| - 1];
    assert front + [e] == events;
    FoldOfMore(front, e);
    ApplyToChildRecord(Fold(front), e, task);
    if k < |front| { ChildSeqIsLatest(front, task, k); }
  }
}
