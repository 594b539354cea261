/** Webhook, approve, reject and restart as interleaved steps: each step is one section under the approval
    lock, or one thing a handler does outside it. Executions are started by a claim (or by a direct webhook
    call) and finish later, in any order, if the process lives that long. */
module ApprovalProtocol {
  import opened Json
  import opened ApprovalQueue

  /** Something handed to execute_action, with the roles and scopes of that moment. */
  datatype Execution =
    | ByApproval(id: string, payload: Payload, requestedBy: string, role: string, controller: Option<string>, approver: string, policy: Policy, cooling: bool)
    | Direct(payload: Payload, caller: string, target: string, policy: Policy, gates: Gates)

  /** An execution whose handler is still running: not returned yet, or returned and recorded but not audited. */
  datatype Flight = Flight(execution: nat, recorded: bool)

  datatype State = State(
    queue: seq<Item>,            // approval_queue
    disk: seq<Item>,             // approvals.json
    synced: bool,                // the last save succeeded
    flights: seq<Flight>,
    executions: seq<Execution>,  // all that ever started
    audited: seq<nat>,           // executions with an entry in the audit log, one item per entry
    lost: seq<nat>,              // executions whose handler ended without an audit entry
    queued: map<string, Item>,   // every request as it was queued
    arrivals: seq<Item>,         // the same, in the order they were queued
    rejected: set<string>,       // ids rejected by an approver
    revoked: set<string>)        // ids rejected because the requester lost the permission

  const START := State([], [], true, [], [], [], [], map[], [], {}, {})

  datatype Event =
    | Webhook(key: string, payload: Payload, freshId: string, policy: Policy, gates: Gates, saved: bool)
    | Approve(id: string, key: string, policy: Policy, cooling: bool, saved: bool)
    | Reject(id: string, key: string, policy: Policy, saved: bool)
    | Return(flight: nat, outcome: Option<bool>, saved: bool) // execute_action returned; None: nothing to run
    | Abort(flight: nat)                                      // the handler raised
    | Audit(flight: nat)                                      // write_audit_log
    | Restart                                                 // the process dies, a new one loads the queue

  /** Prune, then write to disk - which may fail. */
  function Save(s: State, queue: seq<Item>, saved: bool): State {
    var pruned := Prune(queue);
    s.(queue := pruned, disk := if saved then pruned else s.disk, synced := saved)
  }

  function Launch(s: State, e: Execution): State {
    s.(executions := s.executions + [e], flights := s.flights + [Flight(|s.executions|, false)])
  }

  function NextWebhook(s: State, e: Event): State
    requires e.Webhook?
  {
    match DecideWebhook(e.policy, e.key, e.payload, e.gates)
    case Refused => s
    case Enqueue(controller) =>
      var x := NewItem(e.policy, e.key, e.payload, e.freshId, controller);
      Save(s, s.queue + [x], e.saved).(queued := s.queued[x.id := x], arrivals := s.arrivals + [x])
    case Execute(controller) => Launch(s, Direct(e.payload, e.key, controller, e.policy, e.gates))
  }

  function NextApprove(s: State, e: Event): State
    requires e.Approve?
  {
    var d := DecideApprove(s.queue, e.id, e.key, e.policy, e.cooling);
    var queue := AfterApprove(s.queue, e.id, e.key, e.policy, e.cooling);
    match d
    case Granted(controller) =>
      var x := s.queue[Find(s.queue, e.id).value];
      Launch(Save(s, queue, e.saved), ByApproval(x.id, x.payload, x.requestedBy, x.role, controller, e.key, e.policy, e.cooling))
    case Revoked => Save(s, queue, e.saved).(revoked := s.revoked + {e.id})
    case _ => s
  }

  function NextReject(s: State, e: Event): State
    requires e.Reject?
  {
    if DecideReject(s.queue, e.id, e.key, e.policy).Granted?
    then Save(s, AfterReject(s.queue, e.id, e.key, e.policy), e.saved).(rejected := s.rejected + {e.id})
    else s
  }

  function Without<T>(q: seq<T>, i: nat): seq<T>
    requires i < |q|
  {
    q[..i] + q[i + 1..]
  }

  /** The state whose queue reflects that execution k returned. */
  function QueueReturned(s: State, k: nat, outcome: Option<bool>, saved: bool): State
    requires k < |s.executions|
  {
    match s.executions[k]
    case ByApproval(id, _, _, _, _, _, _, _) => Save(s, AfterFinish(s.queue, id, outcome), saved)
    case Direct(_, _, _, _, _) => s
  }

  function NextReturn(s: State, e: Event): State
    requires e.Return?
  {
    if e.flight >= |s.flights| || s.flights[e.flight].recorded || s.flights[e.flight].execution >= |s.executions| then s
    else
      var k := s.flights[e.flight].execution;
      var t := QueueReturned(s, k, e.outcome, e.saved);
      if e.outcome.None? then t.(flights := Without(s.flights, e.flight), lost := s.lost + [k])
      else t.(flights := s.flights[e.flight := Flight(k, true)])
  }

  function Executing(flights: seq<Flight>): seq<nat> {
    if flights == [] then [] else Executing(flights[..|flights| - 1]) + [flights[|flights| - 1].execution]
  }

  function Next(s: State, e: Event): State {
    match e
    case Webhook(_, _, _, _, _, _) => NextWebhook(s, e)
    case Approve(_, _, _, _, _) => NextApprove(s, e)
    case Reject(_, _, _, _) => NextReject(s, e)
    case Return(_, _, _) => NextReturn(s, e)
    case Abort(i) =>
      if i >= |s.flights| then s
      else s.(flights := Without(s.flights, i), lost := s.lost + [s.flights[i].execution])
    case Audit(i) =>
      if i >= |s.flights| || !s.flights[i].recorded then s
      else s.(flights := Without(s.flights, i), audited := s.audited + [s.flights[i].execution])
    case Restart => s.(queue := s.disk, synced := true, flights := [], lost := s.lost + Executing(s.flights))
  }

  function Run(events: seq<Event>): State {
    if events == [] then START else Next(Run(events[..|events| - 1]), events[|events| - 1])
  }

  /** uuid4 never repeats an id. */
  predicate Admissible(s: State, e: Event) {
    e.Webhook? ==> e.freshId !in s.queued
  }

  predicate Proper(events: seq<Event>) {
    events == [] ||
    (var n := |events| - 1; Proper(events[..n]) && Admissible(Run(events[..n]), events[n]))
  }

  lemma RunSnoc(events: seq<Event>, e: Event)
    ensures Run(events + [e]) == Next(Run(events), e)
    ensures Proper(events + [e]) <==> Proper(events) && Admissible(Run(events), e)
  {
    assert (events + [e])[..|events|] == events;
  }

  // ----- what a step does to the queue -----

  /** The queue that a step saves, before pruning; None if it saves nothing. */
  function Saving(s: State, e: Event): Option<seq<Item>> {
    match e
    case Webhook(key, payload, id, pol, gates, _) =>
      (match DecideWebhook(pol, key, payload, gates)
       case Enqueue(controller) => Some(s.queue + [NewItem(pol, key, payload, id, controller)])
       case _ => None)
    case Approve(id, key, pol, cooling, _) =>
      if ApproveSaves(DecideApprove(s.queue, id, key, pol, cooling)) then Some(AfterApprove(s.queue, id, key, pol, cooling)) else None
    case Reject(id, key, pol, _) =>
      if DecideReject(s.queue, id, key, pol).Granted? then Some(AfterReject(s.queue, id, key, pol)) else None
    case Return(_, outcome, _) =>
      (match Returning(s, e)
       case Some(id) => Some(AfterFinish(s.queue, id, outcome))
       case None => None)
    case _ => None
  }

  /** The approval id whose execution returns in this step. */
  function Returning(s: State, e: Event): Option<string>
    requires e.Return?
  {
    if e.flight >= |s.flights| || s.flights[e.flight].recorded || s.flights[e.flight].execution >= |s.executions| then None
    else match s.executions[s.flights[e.flight].execution]
      case ByApproval(id, _, _, _, _, _, _, _) => Some(id)
      case Direct(_, _, _, _, _) => None
  }

  predicate Saved(e: Event) {
    match e
    case Webhook(_, _, _, _, _, saved) => saved
    case Approve(_, _, _, _, saved) => saved
    case Reject(_, _, _, saved) => saved
    case Return(_, _, saved) => saved
    case _ => false
  }

  /** The execution that a step starts, if it starts one. */
  function Started(s: State, e: Event): Option<Execution> {
    match e
    case Webhook(key, payload, _, pol, gates, _) =>
      (match DecideWebhook(pol, key, payload, gates)
       case Execute(controller) => Some(Direct(payload, key, controller, pol, gates))
       case _ => None)
    case Approve(id, key, pol, cooling, _) =>
      (match DecideApprove(s.queue, id, key, pol, cooling)
       case Granted(controller) =>
         var x := s.queue[Find(s.queue, id).value];
         Some(ByApproval(x.id, x.payload, x.requestedBy, x.role, controller, key, pol, cooling))
       case _ => None)
    case _ => None
  }

  /** What a step means for the requests. */
  datatype Effect = Nothing | Arrives(x: Item) | IsClaimed(id: string) | IsTurnedDown(id: string)

  function EffectOf(s: State, e: Event): Effect {
    match e
    case Webhook(key, payload, id, pol, gates, _) =>
      (match DecideWebhook(pol, key, payload, gates)
       case Enqueue(controller) => Arrives(NewItem(pol, key, payload, id, controller))
       case _ => Nothing)
    case Approve(id, key, pol, cooling, _) =>
      (match DecideApprove(s.queue, id, key, pol, cooling)
       case Granted(_) => IsClaimed(id)
       case Revoked => IsTurnedDown(id)
       case _ => Nothing)
    case Reject(id, key, pol, _) => if DecideReject(s.queue, id, key, pol).Granted? then IsTurnedDown(id) else Nothing
    case _ => Nothing
  }

  /** t is s after a step that started x, saved q and had effect f. */
  ghost predicate Took(s: State, t: State, x: Option<Execution>, q: Option<seq<Item>>, saved: bool, f: Effect) {
    && t.executions == (if x.Some? then s.executions + [x.value] else s.executions)
    && (match q
        case None => t.queue == s.queue && t.disk == s.disk && t.synced == s.synced
        case Some(r) => t.queue == Prune(r) && t.disk == (if saved then Prune(r) else s.disk) && t.synced == saved)
    && t.queued == (if f.Arrives? then s.queued[f.x.id := f.x] else s.queued)
    && t.arrivals == (if f.Arrives? then s.arrivals + [f.x] else s.arrivals)
    && t.rejected + t.revoked == s.rejected + s.revoked + (if f.IsTurnedDown? then {f.id} else {})
  }

  lemma WebhookTook(s: State, e: Event)
    requires e.Webhook?
    ensures Took(s, NextWebhook(s, e), Started(s, e), Saving(s, e), Saved(e), EffectOf(s, e))
  {
  }

  lemma ApproveTook(s: State, e: Event)
    requires e.Approve?
    ensures Took(s, NextApprove(s, e), Started(s, e), Saving(s, e), Saved(e), EffectOf(s, e))
  {
  }

  lemma RejectTook(s: State, e: Event)
    requires e.Reject?
    ensures Took(s, NextReject(s, e), Started(s, e), Saving(s, e), Saved(e), EffectOf(s, e))
  {
  }

  lemma ReturnTook(s: State, e: Event)
    requires e.Return?
    ensures Took(s, NextReturn(s, e), Started(s, e), Saving(s, e), Saved(e), EffectOf(s, e))
  {
  }

  lemma StepTook(s: State, e: Event)
    requires !e.Restart?
    ensures Took(s, Next(s, e), Started(s, e), Saving(s, e), Saved(e), EffectOf(s, e))
  {
    match e
    case Webhook(_, _, _, _, _, _) => WebhookTook(s, e);
    case Approve(_, _, _, _, _) => ApproveTook(s, e);
    case Reject(_, _, _, _) => RejectTook(s, e);
    case Return(_, _, _) => ReturnTook(s, e);
    case Abort(_) =>
    case Audit(_) =>
  }

  /** Processed entries are bounded, in memory and on disk, however long the server runs. */
  lemma {:induction false} ProcessedBounded(events: seq<Event>)
    ensures |ProcessedOf(Run(events).queue)| <= 500 && |ProcessedOf(Run(events).disk)| <= 500
  {
    if events != [] {
      var s, e := Run(events[..|events| - 1]), events[|events| - 1];
      ProcessedBounded(events[..|events| - 1]);
      if !e.Restart? {
        StepTook(s, e);
        if Saving(s, e).Some? {
          PruneKeeps(Saving(s, e).value);
        }
      }
    }
  }

  // ----- entries are requests as they were queued -----

  predicate SameRequest(x: Item, y: Item) {
    x.id == y.id && x.payload == y.payload && x.requestedBy == y.requestedBy && x.role == y.role && x.controller == y.controller
  }

  /** Requests as they were queued, each at most once. */
  ghost predicate Held(q: seq<Item>, queued: map<string, Item>) {
    && DistinctIds(q)
    && forall i :: 0 <= i < |q| ==> q[i].id in queued && SameRequest(q[i], queued[q[i].id])
  }

  ghost function ClaimedIds(executions: seq<Execution>): set<string> {
    set e | e in executions && e.ByApproval? :: e.id
  }

  /** The ids that are not waiting any more: claimed, rejected by an approver or revoked. */
  ghost function Settled(s: State): set<string> {
    ClaimedIds(s.executions) + s.rejected + s.revoked
  }

  ghost predicate Known(s: State) {
    && Settled(s) <= s.queued.Keys
    && (forall x :: x in s.arrivals ==> x.id in s.queued && s.queued[x.id] == x)
    && (forall id :: id in s.queued ==> s.queued[id] in s.arrivals && s.queued[id].id == id)
  }

  /** Queue and disk hold requests as they were queued, whatever saves failed; they are the same queue unless
      the last save failed. */
  ghost predicate QueueInv(s: State) {
    Held(s.queue, s.queued) && Held(s.disk, s.queued) && (s.synced ==> s.disk == s.queue) && Known(s)
  }

  lemma HeldPruned(q: seq<Item>, queued: map<string, Item>)
    requires Held(q, queued)
    ensures Held(Prune(q), queued)
  {
    PruneKeepsDistinct(q);
    forall i | 0 <= i < |Prune(q)|
      ensures Prune(q)[i].id in queued && SameRequest(Prune(q)[i], queued[Prune(q)[i].id])
    {
      assert Prune(q)[i] in q;
    }
  }

  lemma HeldAppended(q: seq<Item>, queued: map<string, Item>, x: Item)
    requires Held(q, queued) && x.id !in queued
    ensures Held(q, queued[x.id := x]) && Held(q + [x], queued[x.id := x])
  {
  }

  lemma HeldReplaced(q: seq<Item>, queued: map<string, Item>, i: nat, y: Item)
    requires Held(q, queued) && i < |q| && SameRequest(y, q[i])
    ensures Held(q[i := y], queued)
  {
  }

  lemma HeldSaving(s: State, e: Event)
    requires Held(s.queue, s.queued) && Saving(s, e).Some? && !e.Webhook?
    ensures Held(Saving(s, e).value, s.queued)
  {
    match e
    case Approve(id, key, pol, cooling, _) =>
      var i := Find(s.queue, id).value;
      HeldReplaced(s.queue, s.queued, i, Claimed(s.queue[i], key, pol.roleOf(key)));
      HeldReplaced(s.queue, s.queued, i, RevokedItem(s.queue[i]));
    case Reject(id, key, pol, _) =>
      var i := Find(s.queue, id).value;
      HeldReplaced(s.queue, s.queued, i, RejectedItem(s.queue[i], key, pol.roleOf(key)));
    case Return(_, outcome, _) =>
      var i := Find(s.queue, Returning(s, e).value);
      if i.Some? {
        HeldReplaced(s.queue, s.queued, i.value, Recorded(s.queue[i.value], outcome));
      }
  }

  lemma EffectsHeld(s: State, e: Event)
    requires Held(s.queue, s.queued) && Admissible(s, e)
    ensures var f := EffectOf(s, e);
      match f
      case Nothing => Saving(s, e).Some? ==> Held(Saving(s, e).value, s.queued)
      case Arrives(x) => x.id !in s.queued && Saving(s, e) == Some(s.queue + [x])
      case IsClaimed(id) => id in s.queued && Saving(s, e).Some? && Held(Saving(s, e).value, s.queued)
      case IsTurnedDown(id) => id in s.queued && Saving(s, e).Some? && Held(Saving(s, e).value, s.queued)
  {
    if Saving(s, e).Some? && !e.Webhook? {
      HeldSaving(s, e);
    }
  }

  /** A step starts a claim exactly if that is its effect. */
  lemma EffectStarts(s: State, e: Event)
    ensures var f, x := EffectOf(s, e), Started(s, e);
      if f.IsClaimed? then x.Some? && x.value.ByApproval? && x.value.id == f.id else x.Some? ==> x.value.Direct?
  {
  }

  lemma ClaimedSnoc(executions: seq<Execution>, e: Execution)
    ensures ClaimedIds(executions + [e]) == ClaimedIds(executions) + if e.ByApproval? then {e.id} else {}
  {
  }

  lemma KnownTook(s: State, t: State, x: Option<Execution>, q: Option<seq<Item>>, saved: bool, f: Effect)
    requires Known(s) && Took(s, t, x, q, saved, f)
    requires x.Some? && x.value.ByApproval? ==> x.value.id in s.queued
    requires f.Arrives? ==> f.x.id !in s.queued
    requires f.IsTurnedDown? ==> f.id in s.queued
    ensures Known(t)
  {
    if x.Some? {
      ClaimedSnoc(s.executions, x.value);
    }
  }

  lemma HeldTook(s: State, t: State, x: Option<Execution>, q: Option<seq<Item>>, saved: bool, f: Effect)
    requires Held(s.queue, s.queued) && Held(s.disk, s.queued) && (s.synced ==> s.disk == s.queue)
    requires Took(s, t, x, q, saved, f)
    requires f.Arrives? ==> f.x.id !in s.queued && q == Some(s.queue + [f.x])
    requires !f.Arrives? && q.Some? ==> Held(q.value, s.queued)
    ensures Held(t.queue, t.queued) && Held(t.disk, t.queued) && (t.synced ==> t.disk == t.queue)
  {
    if f.Arrives? {
      HeldAppended(s.queue, s.queued, f.x);
      HeldAppended(s.disk, s.queued, f.x);
    }
    if q.Some? {
      HeldPruned(q.value, t.queued);
    }
  }

  lemma StepKeeps(s: State, e: Event)
    requires QueueInv(s) && Admissible(s, e)
    ensures QueueInv(Next(s, e))
  {
    if !e.Restart? {
      StepTook(s, e);
      EffectsHeld(s, e);
      EffectStarts(s, e);
      KnownTook(s, Next(s, e), Started(s, e), Saving(s, e), Saved(e), EffectOf(s, e));
      HeldTook(s, Next(s, e), Started(s, e), Saving(s, e), Saved(e), EffectOf(s, e));
    }
  }

  lemma {:induction false} RunKeeps(events: seq<Event>)
    requires Proper(events)
    ensures QueueInv(Run(events))
  {
    if events != [] {
      var n := |events| - 1;
      RunKeeps(events[..n]);
      StepKeeps(Run(events[..n]), events[n]);
    }
  }

  /** A restart after a successful save brings back the very queue. */
  lemma RestartRestoresQueue(events: seq<Event>)
    requires Proper(events) && Run(events).synced
    ensures Run(events + [Restart]).queue == Run(events).queue
  {
    RunSnoc(events, Restart);
    RunKeeps(events);
  }

  // ----- who may execute what -----

  /** A direct call that passed every gate of the webhook, or a claim of a request as it was queued, by
      somebody else with the right to approve, while the requester was still permitted. */
  ghost predicate Authorised(e: Execution, queued: map<string, Item>) {
    match e
    case Direct(payload, caller, target, pol, g) =>
      && !g.callerLimited && !g.actionLimited && !g.cooling && !g.approvalRequired
      && Permitted(pol, caller, pol.roleOf(caller), payload.eventType, Some(target))
      && pol.actionKnown(payload.eventType) && ControllerFor(pol, payload) == Some(target) && pol.controllerKnown(target)
      && (payload.controllerOverride != "" ==> pol.can(pol.roleOf(caller), "controller_override"))
    case ByApproval(id, payload, requester, role, controller, approver, pol, cooling) =>
      && id in queued && !cooling
      && payload == queued[id].payload && requester == queued[id].requestedBy && role == queued[id].role
      && approver != requester && pol.can(pol.roleOf(approver), "approve_actions")
      && Permitted(pol, requester, role, payload.eventType, controller)
      && pol.actionKnown(payload.eventType) && ControllerFor(pol, payload) == controller
  }

  lemma StartedIsAuthorised(s: State, e: Event)
    requires QueueInv(s) && Started(s, e).Some?
    ensures Authorised(Started(s, e).value, s.queued)
  {
    if e.Approve? {
      var x := s.queue[Find(s.queue, e.id).value];
      assert x in s.queue;
    }
  }

  lemma {:induction false} AuthorisedTook(s: State, t: State, x: Option<Execution>, q: Option<seq<Item>>, saved: bool, f: Effect)
    requires Took(s, t, x, q, saved, f) && (f.Arrives? ==> f.x.id !in s.queued)
    requires forall y :: y in s.executions ==> Authorised(y, s.queued)
    requires x.Some? ==> Authorised(x.value, s.queued)
    ensures forall y :: y in t.executions ==> Authorised(y, t.queued)
  {
    forall y | y in t.executions
      ensures Authorised(y, t.queued)
    {
      assert Authorised(y, s.queued);
    }
  }

  /** Every execution is authorised, and an approved one is exactly the request that was queued, even after
      restarts: queue entries keep payload, requester and role from the moment they are queued. */
  lemma {:induction false} ExecutionsAuthorised(events: seq<Event>)
    requires Proper(events)
    ensures forall x :: x in Run(events).executions ==> Authorised(x, Run(events).queued)
  {
    if events != [] {
      var n := |events| - 1;
      var s, e := Run(events[..n]), events[n];
      ExecutionsAuthorised(events[..n]);
      if !e.Restart? {
        RunKeeps(events[..n]);
        StepTook(s, e);
        EffectsHeld(s, e);
        if Started(s, e).Some? {
          StartedIsAuthorised(s, e);
        }
        AuthorisedTook(s, Next(s, e), Started(s, e), Saving(s, e), Saved(e), EffectOf(s, e));
      }
    }
  }

  /** An override that was asked for is what approvers are shown. */
  ghost predicate OverridesShown(queued: map<string, Item>) {
    forall id :: id in queued && queued[id].payload.controllerOverride != "" ==>
      queued[id].controller == queued[id].payload.controllerOverride
  }

  lemma ArrivalShown(s: State, e: Event)
    requires EffectOf(s, e).Arrives?
    ensures var x := EffectOf(s, e).x; x.payload.controllerOverride != "" ==> x.controller == x.payload.controllerOverride
  {
  }

  lemma {:induction false} RunShowsOverrides(events: seq<Event>)
    ensures OverridesShown(Run(events).queued)
  {
    if events != [] {
      var n := |events| - 1;
      var s, e := Run(events[..n]), events[n];
      RunShowsOverrides(events[..n]);
      if !e.Restart? {
        StepTook(s, e);
        if EffectOf(s, e).Arrives? {
          ArrivalShown(s, e);
        }
      }
    }
  }

  /** An approved execution runs on the controller computed at the claim. It is the one that the approver was shown
      exactly if the request asked for an override, or the action's default is still that one. */
  lemma ApprovedControllerIff(events: seq<Event>, k: nat)
    requires Proper(events) && k < |Run(events).executions| && Run(events).executions[k].ByApproval?
    ensures var x := Run(events).executions[k];
      && x.id in Run(events).queued
      && var shown := Run(events).queued[x.id];
      && (x.controller == Some(shown.controller) <==>
        shown.payload.controllerOverride != "" || x.policy.defaultController(shown.payload.eventType) == Some(shown.controller))
  {
    var s := Run(events);
    ExecutionsAuthorised(events);
    RunShowsOverrides(events);
    assert s.executions[k] in s.executions;
    assert Authorised(s.executions[k], s.queued);
  }

  /** What an approve request needs besides a pending entry. */
  predicate Approvable(x: Item, e: Event)
    requires e.Approve?
  {
    && e.policy.can(e.policy.roleOf(e.key), "approve_actions") && x.requestedBy != e.key && !e.cooling
    && e.policy.actionKnown(x.payload.eventType)
    && Permitted(e.policy, x.requestedBy, x.role, x.payload.eventType, ControllerFor(e.policy, x.payload))
  }

  /** No pending request gets stuck: at the end of any run, an approve request starts an execution exactly if
      an entry with its id is pending and the request, as it was once queued, may be approved - and then it
      starts that. */
  lemma ApproveExecutesIff(events: seq<Event>, e: Event)
    requires Proper(events) && e.Approve?
    ensures var s, t := Run(events), Run(events + [e]);
      if (exists i :: 0 <= i < |s.queue| && s.queue[i].id == e.id && s.queue[i].status.Pending?
            && e.id in s.queued && Approvable(s.queued[e.id], e)) then
        var x := s.queued[e.id];
        t.executions == s.executions +
          [ByApproval(x.id, x.payload, x.requestedBy, x.role, ControllerFor(e.policy, x.payload), e.key, e.policy, e.cooling)]
      else t.executions == s.executions
  {
    RunSnoc(events, e);
    RunKeeps(events);
    ApproveStartsIff(Run(events), e);
    StepTook(Run(events), e);
  }

  lemma ApproveStartsIff(s: State, e: Event)
    requires QueueInv(s) && e.Approve?
    ensures if (exists i :: 0 <= i < |s.queue| && s.queue[i].id == e.id && s.queue[i].status.Pending?
                  && e.id in s.queued && Approvable(s.queued[e.id], e)) then
        var x := s.queued[e.id];
        Started(s, e) ==
          Some(ByApproval(x.id, x.payload, x.requestedBy, x.role, ControllerFor(e.policy, x.payload), e.key, e.policy, e.cooling))
      else Started(s, e) == None
  {
    var i := Find(s.queue, e.id);
    if i.Some? {
      assert forall j :: 0 <= j < |s.queue| && s.queue[j].id == e.id ==> j == i.value;
    }
  }

  // ----- every execution is accounted for -----

  function UpTo(n: nat): multiset<nat> {
    if n == 0 then multiset{} else UpTo(n - 1) + multiset{n - 1}
  }

  lemma {:induction false} UpToCounts(n: nat, k: nat)
    ensures UpTo(n)[k] == if k < n then 1 else 0
  {
    if n > 0 {
      UpToCounts(n - 1, k);
    }
  }

  /** Each execution is in flight, audited or lost, exactly once. */
  ghost predicate AccountInv(s: State) {
    multiset(Executing(s.flights)) + multiset(s.audited) + multiset(s.lost) == UpTo(|s.executions|)
  }

  lemma {:induction false} ExecutingAppend(a: seq<Flight>, b: seq<Flight>)
    ensures Executing(a + b) == Executing(a) + Executing(b)
    decreases |b|
  {
    if b == [] {
      assert a + b == a;
    } else {
      assert (a + b)[..|a + b| - 1] == a + b[..|b| - 1];
      ExecutingAppend(a, b[..|b| - 1]);
    }
  }

  lemma ExecutingOne(f: Flight)
    ensures Executing([f]) == [f.execution]
  {
  }

  lemma ExecutingSplit(flights: seq<Flight>, i: nat)
    requires i < |flights|
    ensures multiset(Executing(flights)) == multiset(Executing(Without(flights, i))) + multiset{flights[i].execution}
    ensures forall f: Flight :: f.execution == flights[i].execution ==> Executing(flights[i := f]) == Executing(flights)
  {
    var a, f, b := flights[..i], flights[i], flights[i + 1..];
    assert flights == a + [f] + b;
    ExecutingAppend(a, [f]);
    ExecutingAppend(a + [f], b);
    ExecutingAppend(a, b);
    ExecutingOne(f);
    forall g: Flight | g.execution == f.execution
      ensures Executing(flights[i := g]) == Executing(flights)
    {
      assert flights[i := g] == a + [g] + b;
      ExecutingAppend(a, [g]);
      ExecutingAppend(a + [g], b);
      ExecutingOne(g);
    }
  }

  lemma LaunchAccounted(s: State, t: State, e: Execution)
    requires AccountInv(s)
    requires t.flights == s.flights && t.executions == s.executions && t.audited == s.audited && t.lost == s.lost
    ensures AccountInv(Launch(t, e))
  {
  }

  /** A flight ends: its execution is audited or lost. */
  lemma FlightEnds(s: State, t: State, i: nat)
    requires AccountInv(s) && i < |s.flights|
    requires t.executions == s.executions && t.flights == Without(s.flights, i)
    requires var k := s.flights[i].execution;
      || (t.audited == s.audited + [k] && t.lost == s.lost)
      || (t.lost == s.lost + [k] && t.audited == s.audited)
    ensures AccountInv(t)
  {
    ExecutingSplit(s.flights, i);
  }

  /** A flight goes on, with its execution returned. */
  lemma FlightStays(s: State, t: State, i: nat)
    requires AccountInv(s) && i < |s.flights|
    requires t.executions == s.executions && t.flights == s.flights[i := Flight(s.flights[i].execution, true)]
    requires t.audited == s.audited && t.lost == s.lost
    ensures AccountInv(t)
  {
    ExecutingSplit(s.flights, i);
  }

  predicate Returns(s: State, e: Event) {
    e.Return? && e.flight < |s.flights| && !s.flights[e.flight].recorded && s.flights[e.flight].execution < |s.executions|
  }

  lemma ReturnParts(s: State, e: Event)
    requires Returns(s, e)
    ensures var t, i := NextReturn(s, e), e.flight;
      && t.executions == s.executions && t.audited == s.audited
      && (if e.outcome.None? then t.flights == Without(s.flights, i) && t.lost == s.lost + [s.flights[i].execution]
          else t.flights == s.flights[i := Flight(s.flights[i].execution, true)] && t.lost == s.lost)
  {
  }

  lemma ReturnAccounted(s: State, e: Event)
    requires AccountInv(s) && e.Return?
    ensures AccountInv(NextReturn(s, e))
  {
    if Returns(s, e) {
      ReturnParts(s, e);
      if e.outcome.None? {
        FlightEnds(s, NextReturn(s, e), e.flight);
      } else {
        FlightStays(s, NextReturn(s, e), e.flight);
      }
    }
  }

  lemma LaunchStep(s: State, e: Event)
    requires AccountInv(s) && (e.Webhook? || e.Approve?)
    ensures AccountInv(Next(s, e))
  {
    var x := Started(s, e);
    if x.Some? {
      var t := if e.Approve? then Save(s, AfterApprove(s.queue, e.id, e.key, e.policy, e.cooling), e.saved) else s;
      assert Next(s, e) == Launch(t, x.value);
      LaunchAccounted(s, t, x.value);
    }
  }

  lemma AccountStep(s: State, e: Event)
    requires AccountInv(s)
    ensures AccountInv(Next(s, e))
  {
    match e
    case Webhook(_, _, _, _, _, _) => LaunchStep(s, e);
    case Approve(_, _, _, _, _) => LaunchStep(s, e);
    case Reject(_, _, _, _) =>
    case Return(_, _, _) => ReturnAccounted(s, e);
    case Abort(i) => AbortAccounted(s, i);
    case Audit(i) => AuditAccounted(s, i);
    case Restart => RestartAccounted(s);
  }

  lemma AbortAccounted(s: State, i: nat)
    requires AccountInv(s)
    ensures AccountInv(Next(s, Abort(i)))
  {
    if i < |s.flights| {
      FlightEnds(s, Next(s, Abort(i)), i);
    }
  }

  lemma AuditAccounted(s: State, i: nat)
    requires AccountInv(s)
    ensures AccountInv(Next(s, Audit(i)))
  {
    if i < |s.flights| && s.flights[i].recorded {
      FlightEnds(s, Next(s, Audit(i)), i);
    }
  }

  lemma RestartAccounted(s: State)
    requires AccountInv(s)
    ensures AccountInv(Next(s, Restart))
  {
  }

  lemma {:induction false} RunAccounted(events: seq<Event>)
    ensures AccountInv(Run(events))
  {
    if events != [] {
      RunAccounted(events[..|events| - 1]);
      AccountStep(Run(events[..|events| - 1]), events[|events| - 1]);
    }
  }

  /** One audit entry each: an execution whose handler is done has exactly one audit entry, unless the handler
      ended early (nothing to run, an exception, a restart) - then it has none; while in flight it has none. */
  lemma OneAuditEntryEach(events: seq<Event>, k: nat)
    requires k < |Run(events).executions|
    ensures var s := Run(events);
      && multiset(s.audited)[k] <= 1
      && (k !in Executing(s.flights) && k !in s.lost ==> multiset(s.audited)[k] == 1)
      && (k in Executing(s.flights) || k in s.lost ==> k !in s.audited)
  {
    var s := Run(events);
    RunAccounted(events);
    UpToCounts(|s.executions|, k);
    assert (multiset(Executing(s.flights)) + multiset(s.audited) + multiset(s.lost))[k] == 1;
    assert k in Executing(s.flights) <==> multiset(Executing(s.flights))[k] > 0;
    assert k in s.lost <==> multiset(s.lost)[k] > 0;
    assert k in s.audited <==> multiset(s.audited)[k] > 0;
  }
}
