/** What a request does to the server's state, gates included: the calls that the limiter allowed and the executions
    that were recorded decide, in terms of the whole run. */
module ServerSteps {
  import opened Json
  import opened ApprovalQueue
  import opened ApprovalSteps
  import opened ServerRuns
  import P = ApprovalProtocol
  import R = RateLimiter
  import C = Cooldown

  // ----- the cooldown key of a call -----

  /** The parameters of a call are those of the request over the defaults of the action. */
  function Parameter(config: Config, payload: Payload, name: string): Value {
    var defaults := config.defaults(payload.eventType);
    if name in payload.parameters then payload.parameters[name] else if name in defaults then defaults[name] else Null
  }

  /** The cooldown key of a call, on both routes. A controller that is missing is written as None. */
  lemma KeyOfCall(config: Config, payload: Payload, controller: Option<string>)
    ensures var event := payload.eventType;
      var name := config.dedupParam(event);
      CooldownKey(config, payload, controller) ==
        event + "|" + (if controller.Some? then controller.value else "None") + "|" +
        if name == "" || Parameter(config, payload, name) == Null then "" else config.textOf(Parameter(config, payload, name))
  {
    var event := payload.eventType;
    C.KeyExactly(config.dedupParam(event), event, if controller.Some? then controller.value else "None",
                 config.defaults(event) + payload.parameters, config.textOf);
  }

  // ----- webhook -----

  /** The limiter has room for a call at that time: there is no limit under the key, or in the window of a minute,
      which begins after `from`, fewer calls were allowed than the limit. */
  ghost predicate HasRoom(events: seq<Event>, key: string, limit: int, from: real, now: real) {
    limit <= 0 || CountIn(R.RunCalls(CallsFor(events, key), 60.0).allowed, from, now) < limit
  }

  /** The limiter's clock readings under the key were taken in order. */
  ghost predicate InTime(events: seq<Event>, key: string, now: real) {
    R.Ordered(R.ReadingsOf(CallsFor(events, key))) && R.NoneLater(R.ReadingsOf(CallsFor(events, key)), now)
  }

  lemma RoomIffAdmits(events: seq<Event>, c: Check, from: real)
    requires InTime(events, c.key, c.now) && from == c.now - 60.0
    ensures Admits(Run(events).hits, c) <==> HasRoom(events, c.key, c.limit, from, c.now)
  {
    if c.limit > 0 {
      AdmitsIffRoom(events, c, from);
    }
  }

  lemma OtherKeyUntouched(hits: map<string, seq<real>>, c: Check, d: Check)
    requires c.key != d.key
    ensures Admits(AfterCheck(hits, c), d) <==> Admits(hits, d)
  {
  }

  /** The request is dry, or no execution with its key was recorded less than the cooldown before. */
  ghost predicate Cooled(cool: C.State, config: Config, payload: Payload, controller: Option<string>, now: real) {
    payload.dryRun || !C.Recent(cool.notes, CooldownKey(config, payload, controller), config.cooldownOf(payload.eventType), now)
  }

  /** The cooldown is of at most 24 hours, and its clock is read after the last record. */
  ghost predicate CoolInTime(events: seq<Event>, config: Config, payload: Payload, now: real) {
    C.InOrder(CoolTrace(events)) && C.Clock(CoolTrace(events)) <= now && config.cooldownOf(payload.eventType) <= 86_400.0
  }

  /** A direct execution of that request. */
  ghost predicate Runs(x: P.Execution, payload: Payload, caller: string, target: Option<string>) {
    x.Direct? && x.payload == payload && x.caller == caller && Some(x.target) == target
  }

  /** A call is admitted exactly if the caller is entitled to it and the limiter has room for the caller and for the
      action. It is queued exactly if it is admitted and asks for approval, and executed at once exactly if it is
      admitted, asks for none and has cooled down. */
  lemma CallExactly(events: seq<Event>, e: Event, from: real, since: real)
    requires e.request.Webhook? && from == e.clock.caller - 60.0 && since == e.clock.action - 60.0
    requires InTime(events, "caller:" + e.request.key, e.clock.caller)
    requires InTime(events, "action:" + e.request.payload.eventType, e.clock.action)
    requires CoolInTime(events, e.config, e.request.payload, e.clock.check)
    ensures var s, t, call, pol, payload := Run(events), Run(events + [e]), e.request, e.request.policy, e.request.payload;
      var target := Target(pol, payload);
      var admitted :=
        && Entitled(pol, call.key, payload)
        && HasRoom(events, "caller:" + call.key, e.config.limitOfRole(pol.roleOf(call.key)), from, e.clock.caller)
        && HasRoom(events, "action:" + payload.eventType, e.config.limitOfAction(payload.eventType), since, e.clock.action);
      && (admitted && call.gates.approvalRequired ==>
           t.core.arrivals == s.core.arrivals + [Requested(call)] && t.core.executions == s.core.executions)
      && (admitted && !call.gates.approvalRequired && Cooled(s.cool, e.config, payload, target, e.clock.check) ==>
           && t.core.arrivals == s.core.arrivals && |t.core.executions| == |s.core.executions| + 1
           && s.core.executions <= t.core.executions
           && Runs(t.core.executions[|s.core.executions|], payload, call.key, target))
      && (!admitted || (!call.gates.approvalRequired && !Cooled(s.cool, e.config, payload, target, e.clock.check)) ==>
           t.core == s.core)
  {
    var s := Run(events);
    var first := CallerCheck(e);
    RoomIffAdmits(events, first, from);
    RoomIffAdmits(events, ActionCheck(e), since);
    KeysOfLimiterDiffer(e.request.key, e.request.payload.eventType);
    OtherKeyUntouched(s.hits, first, ActionCheck(e));
    CoolingIffRecent(events, e.config, e.request.payload, Target(e.request.policy, e.request.payload), e.clock.check);
    ServerSnoc(events, e);
    WebhookExactly(s.core, Gated(s, e));
  }

  lemma ServerSnoc(events: seq<Event>, e: Event)
    ensures Run(events + [e]) == Step(Run(events), e)
  {
    assert (events + [e])[..|events|] == events;
  }

  /** A check that the limiter counts. */
  function OneCheck(limit: int, now: real): seq<R.Timed> {
    if limit > 0 then [R.Timed(now, limit)] else []
  }

  /** What the limiter counts: every call under its caller, a call under its action only if the caller had room and
      the action exists, and nothing from before a restart. */
  lemma CheckedExactly(events: seq<Event>, e: Event, from: real, key: string)
    requires e.request.Webhook? ==> from == e.clock.caller - 60.0 && InTime(events, "caller:" + e.request.key, e.clock.caller)
    ensures CallsFor(events + [e], key) ==
      if e.request.Restart? then []
      else if !e.request.Webhook? then CallsFor(events, key)
      else
        var call, limit := e.request, e.config.limitOfRole(e.request.policy.roleOf(e.request.key));
        var event := call.payload.eventType;
        CallsFor(events, key) +
        if key == "caller:" + call.key then OneCheck(limit, e.clock.caller)
        else if key == "action:" + event && call.policy.actionKnown(event) && HasRoom(events, "caller:" + call.key, limit, from, e.clock.caller)
        then OneCheck(e.config.limitOfAction(event), e.clock.action)
        else []
  {
    assert (events + [e])[..|events|] == events;
    if e.request.Webhook? {
      RoomIffAdmits(events, CallerCheck(e), from);
      KeysOfLimiterDiffer(e.request.key, e.request.payload.eventType);
    }
  }

  // ----- approve -----

  /** Approving a pending request executes it exactly if the caller may decide, the requester may still run it, its
      action is known and it has cooled down. While it has not, approving changes nothing. */
  lemma ApprovalExactly(events: seq<Event>, e: Event, i: nat)
    requires P.Proper(Trace(events)) && e.request.Approve?
    requires var q := Run(events).core.queue; i < |q| && q[i].id == e.request.id && q[i].status.Pending?
    requires CoolInTime(events, e.config, Run(events).core.queue[i].payload, e.clock.check)
    ensures var s, t, call, pol := Run(events), Run(events + [e]), e.request, e.request.policy;
      && call.id in s.core.queued
      && var x := s.core.queued[call.id];
      var allowed := MayDecide(pol, call.key, x) && RequesterMay(pol, x) && pol.actionKnown(x.payload.eventType);
      var cooled := Cooled(s.cool, e.config, x.payload, Target(pol, x.payload), e.clock.check);
      && (allowed && cooled ==>
           && |t.core.executions| == |s.core.executions| + 1 && s.core.executions <= t.core.executions
           && var y := t.core.executions[|s.core.executions|];
           y.ByApproval? && y.id == x.id && y.payload == x.payload && y.requestedBy == x.requestedBy && y.controller == Target(pol, x.payload))
      && (!(allowed && cooled) ==> t.core.executions == s.core.executions)
      && (allowed && !cooled ==> t.core == s.core)
  {
    var s := Run(events);
    ServerSnoc(events, e);
    CoreIsProtocolRun(events);
    P.RunSnoc(Trace(events), Gated(s, e));
    P.RunKeeps(Trace(events));
    QueuedAs(s.core, i);
    ApproveExactly(Trace(events), Gated(s, e), i);
    var payload := s.core.queue[i].payload;
    CoolingIffRecent(events, e.config, payload, Target(e.request.policy, payload), e.clock.check);
  }

  // ----- what is recorded for the cooldown -----

  /** The handler of a flight belongs to this process, so the tracker still takes its record. */
  ghost predicate FlightsInv(s: Server) {
    && s.cool.since <= |s.cool.log|
    && forall i :: 0 <= i < |s.core.flights| ==>
      var k := s.core.flights[i].execution;
      k < |s.handlers| && (s.handlers[k].slot.Some? ==> s.cool.since <= s.handlers[k].slot.value)
  }

  predicate Finishes(e: P.Event) {
    e.Return? || e.Abort? || e.Audit?
  }

  function FlightOf(e: P.Event): nat
    requires Finishes(e)
  {
    match e
    case Return(f, _, _) => f
    case Abort(f) => f
    case Audit(f) => f
  }

  lemma FlightsLaunched(s: P.State, e: P.Event)
    requires !Finishes(e) && !e.Restart?
    ensures P.Next(s, e).flights == if P.Started(s, e).Some? then s.flights + [P.Flight(|s.executions|, false)] else s.flights
  {
  }

  lemma FlightsFinished(s: P.State, e: P.Event)
    requires Finishes(e)
    ensures var f, flights := FlightOf(e), P.Next(s, e).flights;
      || flights == s.flights
      || (f < |s.flights| && (flights == P.Without(s.flights, f) || flights == s.flights[f := P.Flight(s.flights[f].execution, true)]))
  {
  }

  /** Every flight after a step was one before it, or is of the execution that the step started. */
  lemma FlightsAfter(s: P.State, e: P.Event, i: nat) returns (j: nat)
    requires i < |P.Next(s, e).flights|
    ensures var execution := P.Next(s, e).flights[i].execution;
      || (P.Started(s, e).Some? && execution == |s.executions|)
      || (!e.Restart? && j < |s.flights| && s.flights[j].execution == execution)
  {
    j := i;
    if Finishes(e) {
      FlightsFinished(s, e);
      j := if |P.Next(s, e).flights| < |s.flights| && i >= FlightOf(e) then i + 1 else i;
    } else if !e.Restart? {
      FlightsLaunched(s, e);
    }
  }

  lemma FlightsStep(s: Server, e: Event)
    requires HandlersInv(s) && FlightsInv(s)
    ensures FlightsInv(Step(s, e))
  {
    TrackedLog(s, e);
    var t := Step(s, e);
    forall i | 0 <= i < |t.core.flights|
      ensures var k := t.core.flights[i].execution;
        k < |t.handlers| && (t.handlers[k].slot.Some? ==> t.cool.since <= t.handlers[k].slot.value)
    {
      var j := FlightsAfter(s.core, Gated(s, e), i);
    }
  }

  lemma {:induction false} RunKeepsFlights(events: seq<Event>)
    ensures FlightsInv(Run(events))
  {
    if events != [] {
      var n := |events| - 1;
      RunKeepsFlights(events[..n]);
      RunKeepsHandlers(events[..n]);
      FlightsStep(Run(events[..n]), events[n]);
    }
  }

  /** When an execution returns, its key is recorded with the time exactly if something was run, it was no dry run, and
      its action has a cooldown - under the key and configuration of its start, success or not. */
  lemma ReturnRecords(events: seq<Event>, e: Event)
    requires e.request.Return? && InFlight(Run(events).core, e.request.flight)
    ensures var s, t := Run(events), Run(events + [e]);
      var k := s.core.flights[e.request.flight].execution;
      && k < |s.handlers| && k < |s.core.executions|
      && var payload := s.core.executions[k].payload;
      if e.request.outcome.Some? && !payload.dryRun && s.handlers[k].config.cooldownOf(payload.eventType) != 0.0 then
        && s.handlers[k].slot.Some? && t.cool.disk == Some(t.cool.lastRun)
        && t.cool.notes == s.cool.notes + [C.Note(s.handlers[k].slot.value, KeyOf(s, k), e.clock.record)]
      else t.cool == s.cool
  {
    ServerSnoc(events, e);
    RunKeepsHandlers(events);
    RunKeepsFlights(events);
    var s := Run(events);
    var k := s.core.flights[e.request.flight].execution;
    assert Noted(s.core.executions[k], s.handlers[k], s.cool.log);
    TrackedReturn(s, e, k);
    if s.handlers[k].slot.Some? {
      RecordMade(s.cool, s.handlers[k].slot.value, e.clock.record, e.clock.pruned);
    }
  }

  lemma TrackedReturn(s: Server, e: Event, k: nat)
    requires e.request.Return? && InFlight(s.core, e.request.flight)
    requires k == s.core.flights[e.request.flight].execution && k < |s.handlers|
    ensures Step(s, e).cool == if e.request.outcome.Some? && s.handlers[k].slot.Some?
      then C.Step(s.cool, C.Record(s.handlers[k].slot.value, e.clock.record, e.clock.pruned)) else s.cool
  {
  }

  lemma RecordMade(cool: C.State, i: nat, now: real, pruned: real)
    requires cool.since <= i < |cool.log|
    ensures var t := C.Step(cool, C.Record(i, now, pruned));
      if cool.log[i].cooldown == 0.0 then t == cool
      else t.disk == Some(t.lastRun) && t.notes == cool.notes + [C.Note(i, cool.log[i].key, now)]
  {
  }
}
