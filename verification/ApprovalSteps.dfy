/** What each request does to the server's state, in terms of the request, the roles and scopes of its moment and
    the request that was queued - beside the order of tests in which the handlers find it out. */
module ApprovalSteps {
  import opened Json
  import opened ApprovalQueue
  import opened ApprovalProtocol

  // ----- webhook -----

  /** The controller that a request names, or else the default of its action. */
  function Target(pol: Policy, payload: Payload): Option<string> {
    if payload.controllerOverride == "" then pol.defaultController(payload.eventType) else Some(payload.controllerOverride)
  }

  /** The action and the controller exist, and the caller may run this action there - and name the controller, if it
      does. */
  ghost predicate Entitled(pol: Policy, key: string, payload: Payload) {
    var role, event, target := pol.roleOf(key), payload.eventType, Target(pol, payload);
    && pol.actionKnown(event)
    && pol.can(role, "execute_actions") && pol.actionAllowed(key, event)
    && (payload.controllerOverride != "" ==> pol.can(role, "controller_override"))
    && target.Some? && pol.controllerKnown(target.value) && pol.controllerAllowed(key, target)
  }

  /** No limit is used up, and the caller is entitled to what it asks for. */
  ghost predicate Admitted(e: Event)
    requires e.Webhook?
  {
    !e.gates.callerLimited && !e.gates.actionLimited && Entitled(e.policy, e.key, e.payload)
  }

  /** The entry that a request becomes. */
  function Requested(e: Event): Item
    requires e.Webhook? && Target(e.policy, e.payload).Some?
  {
    Item(e.freshId, e.payload, e.key, e.policy.roleOf(e.key), Target(e.policy, e.payload).value, Pending, None, None, None)
  }

  /** A call is queued exactly if it is admitted and asks for approval, and executed directly exactly if it is
      admitted, asks for none and its key is not cooling. Otherwise nothing changes. */
  lemma WebhookExactly(s: State, e: Event)
    requires e.Webhook?
    ensures var t := Next(s, e);
      if Admitted(e) && e.gates.approvalRequired then
        var x := Requested(e);
        && t.arrivals == s.arrivals + [x] && t.queued == s.queued[x.id := x]
        && t.queue == Prune(s.queue + [x]) && t.disk == (if e.saved then t.queue else s.disk)
        && t.executions == s.executions && t.flights == s.flights
      else if Admitted(e) && !e.gates.cooling then
        && t.executions == s.executions + [Direct(e.payload, e.key, Target(e.policy, e.payload).value, e.policy, e.gates)]
        && t.flights == s.flights + [Flight(|s.executions|, false)]
        && t.arrivals == s.arrivals && t.queue == s.queue && t.disk == s.disk
      else t == s
  {
  }

  ghost predicate CameFrom(x: Item, e: Event) {
    e.Webhook? && Admitted(e) && e.gates.approvalRequired && x == Requested(e)
  }

  /** Over whole runs: every queued request came from a call that was admitted at that moment and asked for approval,
      and names its caller, the caller's role and the controller that was checked. */
  lemma {:induction false} ArrivalsAdmitted(events: seq<Event>, i: nat) returns (k: nat)
    requires i < |Run(events).arrivals|
    ensures k < |events| && CameFrom(Run(events).arrivals[i], events[k])
  {
    var n := |events| - 1;
    var s, e := Run(events[..n]), events[n];
    if i < |s.arrivals| {
      k := ArrivalsAdmitted(events[..n], i);
      ArrivalsGrow(s, e);
    } else {
      k := n;
      if e.Webhook? {
        WebhookExactly(s, e);
      } else if !e.Restart? {
        StepTook(s, e);
      }
    }
  }

  lemma ArrivalsGrow(s: State, e: Event)
    ensures s.arrivals <= Next(s, e).arrivals
  {
    if !e.Restart? {
      StepTook(s, e);
    }
  }

  // ----- approve and reject -----

  /** The caller may decide on the request x: an approver, and not the one who asked. */
  ghost predicate MayDecide(pol: Policy, key: string, x: Item) {
    pol.can(pol.roleOf(key), "approve_actions") && x.requestedBy != key
  }

  /** The requester of x may still run its action on its controller. */
  ghost predicate RequesterMay(pol: Policy, x: Item) {
    && pol.can(x.role, "execute_actions")
    && pol.actionAllowed(x.requestedBy, x.payload.eventType)
    && pol.controllerAllowed(x.requestedBy, Target(pol, x.payload))
  }

  /** Of an action that is not configured any more, the default controller cannot be looked up. */
  ghost predicate LookupWorks(pol: Policy, x: Item) {
    x.payload.controllerOverride != "" || pol.actionKnown(x.payload.eventType)
  }

  /** t is s with entry i of the queue replaced, saved if the save works. */
  ghost predicate Changed(s: State, t: State, i: nat, y: Item, saved: bool)
    requires i < |s.queue|
  {
    && t.queue == Prune(s.queue[i := y])
    && t.disk == (if saved then t.queue else s.disk) && t.synced == saved
    && t.arrivals == s.arrivals && t.queued == s.queued && t.audited == s.audited && t.lost == s.lost
  }

  lemma OnlyEntry(q: seq<Item>, i: nat)
    requires DistinctIds(q) && i < |q|
    ensures Find(q, q[i].id) == Some(i)
  {
    assert q[i] in q;
    assert Find(q, q[i].id).Some?;
  }

  lemma QueuedAs(s: State, i: nat)
    requires QueueInv(s) && i < |s.queue|
    ensures Find(s.queue, s.queue[i].id) == Some(i)
    ensures s.queue[i].id in s.queued && SameRequest(s.queue[i], s.queued[s.queue[i].id])
  {
    OnlyEntry(s.queue, i);
  }

  /** Approving an id of which no entry is pending changes nothing, and neither does rejecting it. */
  lemma {:induction false} NothingPending(events: seq<Event>, e: Event)
    requires Proper(events) && (e.Approve? || e.Reject?)
    requires forall i :: 0 <= i < |Run(events).queue| && Run(events).queue[i].id == e.id ==> !Run(events).queue[i].status.Pending?
    ensures Run(events + [e]) == Run(events)
  {
    RunSnoc(events, e);
    NotPending(Run(events), e);
  }

  lemma {:induction false} NotPending(s: State, e: Event)
    requires e.Approve? || e.Reject?
    requires forall i :: 0 <= i < |s.queue| && s.queue[i].id == e.id ==> !s.queue[i].status.Pending?
    ensures Next(s, e) == s
  {
  }

  /** Approving a pending entry. The request is turned down exactly if the caller may decide, the lookup works, and
      the requester may not run it any more; it is executed exactly if the requester still may, the action is
      known and its key is not cooling. Otherwise nothing changes: a cooling request goes on waiting. */
  lemma ApproveExactly(events: seq<Event>, e: Event, i: nat)
    requires Proper(events) && e.Approve?
    requires i < |Run(events).queue| && Run(events).queue[i].id == e.id && Run(events).queue[i].status.Pending?
    ensures var s, t := Run(events), Run(events + [e]);
      && e.id in s.queued
      && var x, y, role := s.queued[e.id], s.queue[i], e.policy.roleOf(e.key);
      if MayDecide(e.policy, e.key, x) && LookupWorks(e.policy, x) && !RequesterMay(e.policy, x) then
        && Changed(s, t, i, y.(status := Rejected, result := Some(NoLongerPermitted)), e.saved)
        && t.revoked == s.revoked + {e.id} && t.rejected == s.rejected
        && t.executions == s.executions && t.flights == s.flights
      else if MayDecide(e.policy, e.key, x) && RequesterMay(e.policy, x) && e.policy.actionKnown(x.payload.eventType) && !e.cooling then
        && Changed(s, t, i, y.(status := Approved, approvedBy := Some(e.key), approverRole := Some(role)), e.saved)
        && t.revoked == s.revoked && t.rejected == s.rejected
        && t.executions == s.executions +
          [ByApproval(e.id, x.payload, x.requestedBy, x.role, Target(e.policy, x.payload), e.key, e.policy, e.cooling)]
        && t.flights == s.flights + [Flight(|s.executions|, false)]
      else t == s
  {
    RunSnoc(events, e);
    RunKeeps(events);
    var s := Run(events);
    var x := s.queue[i];
    QueuedAs(s, i);
    DecisionExactly(s, e, i);
    var d := DecideApprove(s.queue, e.id, e.key, e.policy, e.cooling);
    if d.Revoked? {
      TurnedDownExactly(s, e, i);
    } else if d.Granted? {
      ExecutedExactly(s, e, i);
    }
  }

  lemma DecisionExactly(s: State, e: Event, i: nat)
    requires e.Approve? && i < |s.queue| && s.queue[i].id == e.id && s.queue[i].status.Pending? && Find(s.queue, e.id) == Some(i)
    ensures var x, d := s.queue[i], DecideApprove(s.queue, e.id, e.key, e.policy, e.cooling);
      && (d.Revoked? <==> MayDecide(e.policy, e.key, x) && LookupWorks(e.policy, x) && !RequesterMay(e.policy, x))
      && (d.Granted? <==>
        MayDecide(e.policy, e.key, x) && RequesterMay(e.policy, x) && e.policy.actionKnown(x.payload.eventType) && !e.cooling)
      && (d.Granted? ==> d.controller == Target(e.policy, x.payload))
  {
  }

  lemma TurnedDownExactly(s: State, e: Event, i: nat)
    requires e.Approve? && i < |s.queue| && Find(s.queue, e.id) == Some(i)
    requires DecideApprove(s.queue, e.id, e.key, e.policy, e.cooling).Revoked?
    ensures var t := Next(s, e);
      && Changed(s, t, i, s.queue[i].(status := Rejected, result := Some(NoLongerPermitted)), e.saved)
      && t.revoked == s.revoked + {e.id} && t.rejected == s.rejected
      && t.executions == s.executions && t.flights == s.flights
  {
  }

  lemma ExecutedExactly(s: State, e: Event, i: nat)
    requires e.Approve? && i < |s.queue| && Find(s.queue, e.id) == Some(i)
    requires DecideApprove(s.queue, e.id, e.key, e.policy, e.cooling).Granted?
    ensures var t, x, d := Next(s, e), s.queue[i], DecideApprove(s.queue, e.id, e.key, e.policy, e.cooling);
      && Changed(s, t, i, x.(status := Approved, approvedBy := Some(e.key), approverRole := Some(e.policy.roleOf(e.key))), e.saved)
      && t.revoked == s.revoked && t.rejected == s.rejected
      && t.executions == s.executions + [ByApproval(e.id, x.payload, x.requestedBy, x.role, d.controller, e.key, e.policy, e.cooling)]
      && t.flights == s.flights + [Flight(|s.executions|, false)]
  {
  }

  /** Rejecting a pending entry: it is rejected, with who did it, exactly if the caller may decide. */
  lemma RejectExactly(events: seq<Event>, e: Event, i: nat)
    requires Proper(events) && e.Reject?
    requires i < |Run(events).queue| && Run(events).queue[i].id == e.id && Run(events).queue[i].status.Pending?
    ensures var s, t := Run(events), Run(events + [e]);
      && e.id in s.queued
      && var y, role := s.queue[i], e.policy.roleOf(e.key);
      if MayDecide(e.policy, e.key, s.queued[e.id]) then
        && Changed(s, t, i, y.(status := Rejected, result := Some(RejectedByApprover), approvedBy := Some(e.key), approverRole := Some(role)), e.saved)
        && t.rejected == s.rejected + {e.id} && t.revoked == s.revoked
        && t.executions == s.executions && t.flights == s.flights
      else t == s
  {
    RunSnoc(events, e);
    RunKeeps(events);
    QueuedAs(Run(events), i);
  }

  // ----- what follows an execution -----

  /** The flight is of an execution that has not returned yet. */
  predicate InFlight(s: State, i: nat) {
    i < |s.flights| && !s.flights[i].recorded && s.flights[i].execution < |s.executions|
  }

  /** An approved execution returns: the success it had is recorded in its entry if that is still in the queue, and
      nothing else in it changes; if there was nothing to run, the entry is rejected. Then it waits for its audit
      entry, or ends without one. */
  lemma ReturnExactly(events: seq<Event>, e: Event, id: string)
    requires Proper(events) && e.Return? && InFlight(Run(events), e.flight)
    requires var x := Run(events).executions[Run(events).flights[e.flight].execution]; x.ByApproval? && x.id == id
    ensures var s, t := Run(events), Run(events + [e]);
      var k := s.flights[e.flight].execution;
      && (forall i :: 0 <= i < |s.queue| && s.queue[i].id == id ==>
           t.queue == Prune(s.queue[i := if e.outcome.Some? then s.queue[i].(result := Some(Executed(e.outcome.value)))
                                         else s.queue[i].(status := Rejected, result := Some(NothingExecutable))]))
      && ((forall i :: 0 <= i < |s.queue| ==> s.queue[i].id != id) ==> t.queue == Prune(s.queue))
      && t.disk == (if e.saved then t.queue else s.disk)
      && t.executions == s.executions && t.audited == s.audited
      && (if e.outcome.Some? then t.flights == s.flights[e.flight := Flight(k, true)] && t.lost == s.lost
          else t.flights == s.flights[..e.flight] + s.flights[e.flight + 1..] && t.lost == s.lost + [k])
  {
    RunSnoc(events, e);
    RunKeeps(events);
    var s := Run(events);
    forall i | 0 <= i < |s.queue| && s.queue[i].id == id
      ensures Find(s.queue, id) == Some(i)
    {
      OnlyEntry(s.queue, i);
    }
    ReturnedQueue(s, e, id);
  }

  lemma ReturnedQueue(s: State, e: Event, id: string)
    requires e.Return? && InFlight(s, e.flight)
    requires var x := s.executions[s.flights[e.flight].execution]; x.ByApproval? && x.id == id
    ensures var t, k := Next(s, e), s.flights[e.flight].execution;
      && t.queue == Prune(AfterFinish(s.queue, id, e.outcome)) && t.disk == (if e.saved then t.queue else s.disk)
      && t.executions == s.executions && t.audited == s.audited
      && (if e.outcome.Some? then t.flights == s.flights[e.flight := Flight(k, true)] && t.lost == s.lost
          else t.flights == s.flights[..e.flight] + s.flights[e.flight + 1..] && t.lost == s.lost + [k])
  {
  }

  /** A direct execution returns: the queue is not touched. What is not in flight does not return. */
  lemma DirectReturnExactly(s: State, e: Event)
    requires e.Return? && (InFlight(s, e.flight) ==> s.executions[s.flights[e.flight].execution].Direct?)
    ensures Next(s, e) ==
      if !InFlight(s, e.flight) then s
      else
        var k := s.flights[e.flight].execution;
        if e.outcome.Some? then s.(flights := s.flights[e.flight := Flight(k, true)])
        else s.(flights := s.flights[..e.flight] + s.flights[e.flight + 1..], lost := s.lost + [k])
  {
  }

  /** A returned execution gets its audit entry, once; nothing else changes. */
  lemma AuditExactly(s: State, e: Event)
    requires e.Audit?
    ensures var t := Next(s, e);
      if e.flight < |s.flights| && s.flights[e.flight].recorded then
        && t.audited == s.audited + [s.flights[e.flight].execution]
        && t.flights == s.flights[..e.flight] + s.flights[e.flight + 1..]
        && t.lost == s.lost && t.executions == s.executions && t.queue == s.queue && t.disk == s.disk
      else t == s
  {
  }

  /** A handler that raises ends its execution without an audit entry. */
  lemma AbortExactly(s: State, e: Event)
    requires e.Abort?
    ensures Next(s, e) ==
      if e.flight >= |s.flights| then s
      else s.(flights := s.flights[..e.flight] + s.flights[e.flight + 1..], lost := s.lost + [s.flights[e.flight].execution])
  {
  }

  /** When the process dies, the queue is what the disk has, and no execution in flight gets an audit entry. */
  lemma RestartExactly(s: State)
    ensures var t := Next(s, Restart);
      && t.queue == t.disk == s.disk && t.flights == []
      && t.audited == s.audited && t.executions == s.executions
      && |t.lost| == |s.lost| + |s.flights| && s.lost <= t.lost
      && (forall i :: 0 <= i < |s.flights| ==> t.lost[|s.lost| + i] == s.flights[i].execution)
      && t.queued == s.queued && t.arrivals == s.arrivals && t.rejected == s.rejected && t.revoked == s.revoked
  {
    ExecutingAt(s.flights);
  }

  lemma {:induction false} ExecutingAt(flights: seq<Flight>)
    ensures |Executing(flights)| == |flights| && forall i :: 0 <= i < |flights| ==> Executing(flights)[i] == flights[i].execution
    decreases |flights|
  {
    if flights != [] {
      ExecutingAt(flights[..|flights| - 1]);
    }
  }
}
