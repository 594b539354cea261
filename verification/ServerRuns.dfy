/** The approval protocol with its gates: the limiter's queues and the cooldown records are part of the state,
    and every gate that the protocol takes as given is computed from them. */
module ServerRuns {
  import opened Json
  import opened Sequences
  import opened ApprovalQueue
  import P = ApprovalProtocol
  import R = RateLimiter
  import C = Cooldown

  const WINDOW: real := 60.0

  /** Limits and cooldowns as configured when a request is handled. A limit of 0 or less is none. */
  datatype Config = Config(
    limitOfRole: string -> int,
    limitOfAction: string -> int,
    cooldownOf: string -> real,
    dedupParam: string -> string,
    defaults: string -> Entry,
    textOf: Value -> string)

  /** What a handler reads from the clock: at its two limiter checks, its cooldown check, and when it records. */
  datatype Readings = Readings(caller: real, action: real, check: real, record: real, pruned: real)

  /** A step of the protocol; the gates in `request` are not looked at. */
  datatype Event = Event(request: P.Event, config: Config, clock: Readings)

  /** What the handler of an execution knows. `slot` is its number among the real executions. */
  datatype Handler = Handler(boot: nat, clock: Readings, config: Config, slot: Option<nat>)

  datatype Server = Server(
    core: P.State,
    hits: map<string, seq<real>>, // the limiter's queues, gone when the process dies
    cool: C.State,
    handlers: seq<Handler>,       // one for each execution that ever started
    boot: nat)                    // how often the process was restarted

  const START := Server(P.START, map[], C.START, [], 0)

  // ----- the limiter's gates -----

  datatype Check = Check(key: string, limit: int, now: real)

  function CallerKey(key: string): string {
    "caller:" + key
  }

  function ActionKey(eventType: string): string {
    "action:" + eventType
  }

  function CallerCheck(e: Event): Check
    requires e.request.Webhook?
  {
    Check(CallerKey(e.request.key), e.config.limitOfRole(e.request.policy.roleOf(e.request.key)), e.clock.caller)
  }

  function ActionCheck(e: Event): Check
    requires e.request.Webhook?
  {
    Check(ActionKey(e.request.payload.eventType), e.config.limitOfAction(e.request.payload.eventType), e.clock.action)
  }

  predicate Admits(hits: map<string, seq<real>>, c: Check) {
    c.limit <= 0 || R.CheckQueue(R.Queue(hits, c.key), c.limit, WINDOW, c.now).1.None?
  }

  function AfterCheck(hits: map<string, seq<real>>, c: Check): map<string, seq<real>> {
    if c.limit <= 0 then hits else hits[c.key := R.CheckQueue(R.Queue(hits, c.key), c.limit, WINDOW, c.now).0]
  }

  /** The second check is made only if the first admits the call and the action exists. */
  predicate ReachesAction(hits: map<string, seq<real>>, e: Event)
    requires e.request.Webhook?
  {
    Admits(hits, CallerCheck(e)) && e.request.policy.actionKnown(e.request.payload.eventType)
  }

  function HitsAfter(hits: map<string, seq<real>>, e: Event): map<string, seq<real>> {
    match e.request
    case Webhook(_, _, _, _, _, _) =>
      var first := AfterCheck(hits, CallerCheck(e));
      if ReachesAction(hits, e) then AfterCheck(first, ActionCheck(e)) else first
    case Restart => map[]
    case _ => hits
  }

  // ----- the cooldown gate -----

  function CooldownKey(config: Config, payload: Payload, controller: Option<string>): string {
    var event := payload.eventType;
    C.KeyFor(config.dedupParam(event), event, if controller.Some? then controller.value else "None",
             config.defaults(event) + payload.parameters, config.textOf)
  }

  predicate Cooling(cool: C.State, config: Config, payload: Payload, controller: Option<string>, now: real) {
    !payload.dryRun
    && C.Remaining(cool.lastRun, CooldownKey(config, payload, controller), config.cooldownOf(payload.eventType), now).Some?
  }

  // ----- steps -----

  /** The protocol's step, with its gates computed. */
  function Gated(s: Server, e: Event): P.Event {
    match e.request
    case Webhook(key, payload, id, pol, gates, saved) =>
      var first := AfterCheck(s.hits, CallerCheck(e));
      P.Webhook(key, payload, id, pol,
                Gates(!Admits(s.hits, CallerCheck(e)), !Admits(first, ActionCheck(e)),
                      Cooling(s.cool, e.config, payload, ControllerFor(pol, payload), e.clock.check), gates.approvalRequired),
                saved)
    case Approve(id, key, pol, _, saved) =>
      var i := Find(s.core.queue, id);
      var cooling := i.Some? &&
        var payload := s.core.queue[i.value].payload; Cooling(s.cool, e.config, payload, ControllerFor(pol, payload), e.clock.check);
      P.Approve(id, key, pol, cooling, saved)
    case _ => e.request
  }

  function ControllerOf(x: P.Execution): Option<string> {
    match x
    case ByApproval(_, _, _, _, controller, _, _, _) => controller
    case Direct(_, _, target, _, _) => Some(target)
  }

  /** The step of the cooldown tracker, if the protocol's step involves it. */
  function Tracked(s: Server, e: Event): Option<C.Event> {
    var x := P.Started(s.core, Gated(s, e));
    if x.Some? then
      Some(C.Attempt(CooldownKey(e.config, x.value.payload, ControllerOf(x.value)),
                     e.config.cooldownOf(x.value.payload.eventType), x.value.payload.dryRun, e.clock.check))
    else match e.request
      case Return(i, outcome, _) =>
        if i < |s.core.flights| && !s.core.flights[i].recorded && outcome.Some? && s.core.flights[i].execution < |s.handlers|
           && s.handlers[s.core.flights[i].execution].slot.Some?
        then Some(C.Record(s.handlers[s.core.flights[i].execution].slot.value, e.clock.record, e.clock.pruned))
        else None
      case Restart => Some(C.Restart)
      case _ => None
  }

  function NewHandlers(s: Server, e: Event): seq<Handler> {
    var x := P.Started(s.core, Gated(s, e));
    if x.None? then []
    else [Handler(s.boot, e.clock, e.config, if x.value.payload.dryRun then None else Some(|s.cool.log|))]
  }

  function Step(s: Server, e: Event): Server {
    Server(
      P.Next(s.core, Gated(s, e)),
      HitsAfter(s.hits, e),
      match Tracked(s, e) case Some(c) => C.Step(s.cool, c) case None => s.cool,
      s.handlers + NewHandlers(s, e),
      if e.request.Restart? then s.boot + 1 else s.boot)
  }

  function Run(events: seq<Event>): Server {
    if events == [] then START else Step(Run(events[..|events| - 1]), events[|events| - 1])
  }

  // ----- the parts are runs of their own -----

  function Trace(events: seq<Event>): seq<P.Event> {
    if events == [] then []
    else
      var n := |events| - 1;
      Trace(events[..n]) + [Gated(Run(events[..n]), events[n])]
  }

  function CoolTrace(events: seq<Event>): seq<C.Event> {
    if events == [] then []
    else
      var n := |events| - 1;
      CoolTrace(events[..n]) + match Tracked(Run(events[..n]), events[n]) case Some(c) => [c] case None => []
  }

  /** The gates only choose among the protocol's runs: whatever holds for these holds for the server. */
  lemma {:induction false} CoreIsProtocolRun(events: seq<Event>)
    ensures Run(events).core == P.Run(Trace(events))
  {
    if events != [] {
      var n := |events| - 1;
      CoreIsProtocolRun(events[..n]);
      P.RunSnoc(Trace(events[..n]), Gated(Run(events[..n]), events[n]));
    }
  }

  lemma {:induction false} CoolIsTrackerRun(events: seq<Event>)
    ensures Run(events).cool == C.Run(CoolTrace(events))
  {
    if events != [] {
      var n := |events| - 1;
      CoolIsTrackerRun(events[..n]);
      var c := Tracked(Run(events[..n]), events[n]);
      if c.Some? {
        C.RunSnoc(CoolTrace(events[..n]), c.value);
      } else {
        assert CoolTrace(events) == CoolTrace(events[..n]);
      }
    }
  }

  // ----- what the cooldown gate saw -----

  /** What the tracker noted for the execution x. */
  ghost predicate Noted(x: P.Execution, h: Handler, log: seq<C.Execution>) {
    && (h.slot.None? <==> x.payload.dryRun)
    && (h.slot.Some? ==>
      && h.slot.value < |log|
      && log[h.slot.value].key == CooldownKey(h.config, x.payload, ControllerOf(x))
      && log[h.slot.value].cooldown == h.config.cooldownOf(x.payload.eventType)
      && log[h.slot.value].checked == h.clock.check)
  }

  ghost predicate HandlersInv(s: Server) {
    && |s.handlers| == |s.core.executions|
    && (forall k :: 0 <= k < |s.handlers| ==> Noted(s.core.executions[k], s.handlers[k], s.cool.log))
    && (forall k :: 0 <= k < |s.handlers| ==> s.handlers[k].boot <= s.boot)
  }

  /** What starts was not cooling. */
  lemma StartedNotCooling(s: Server, e: Event)
    requires P.Started(s.core, Gated(s, e)).Some?
    ensures var x := P.Started(s.core, Gated(s, e)).value;
      !Cooling(s.cool, e.config, x.payload, ControllerOf(x), e.clock.check)
  {
  }

  lemma ExecutionsAfter(s: Server, e: Event)
    ensures var x := P.Started(s.core, Gated(s, e));
      Step(s, e).core.executions == if x.Some? then s.core.executions + [x.value] else s.core.executions
  {
    if !e.request.Restart? {
      P.StepTook(s.core, Gated(s, e));
    }
  }

  lemma TrackedLog(s: Server, e: Event)
    ensures var x := P.Started(s.core, Gated(s, e));
      Step(s, e).cool.log == s.cool.log + if x.Some? && !x.value.payload.dryRun then
        [C.Execution(CooldownKey(e.config, x.value.payload, ControllerOf(x.value)),
                     e.config.cooldownOf(x.value.payload.eventType), e.clock.check, |s.cool.notes|)] else []
  {
    if P.Started(s.core, Gated(s, e)).Some? {
      StartedNotCooling(s, e);
    }
  }

  lemma HandlersStep(s: Server, e: Event)
    requires HandlersInv(s)
    ensures HandlersInv(Step(s, e))
  {
    ExecutionsAfter(s, e);
    TrackedLog(s, e);
    var t := Step(s, e);
    forall k | 0 <= k < |t.handlers|
      ensures Noted(t.core.executions[k], t.handlers[k], t.cool.log)
    {
      if k < |s.handlers| {
        assert Noted(s.core.executions[k], s.handlers[k], s.cool.log);
      }
    }
  }

  lemma {:induction false} RunKeepsHandlers(events: seq<Event>)
    ensures HandlersInv(Run(events))
  {
    if events != [] {
      RunKeepsHandlers(events[..|events| - 1]);
      HandlersStep(Run(events[..|events| - 1]), events[|events| - 1]);
    }
  }

  /** Execution i was recorded at `at`, before execution j was checked. */
  ghost predicate RecordedBefore(s: Server, i: nat, j: nat, at: real)
    requires i < |s.handlers| && j < |s.handlers|
  {
    var u, v := s.handlers[i].slot, s.handlers[j].slot;
    && u.Some? && v.Some? && v.value < |s.cool.log|
    && exists r :: 0 <= r < s.cool.log[v.value].seen && r < |s.cool.notes| && s.cool.notes[r] == C.Note(u.value, s.cool.notes[r].key, at)
  }

  function KeyOf(s: Server, k: nat): string
    requires k < |s.handlers| && k < |s.core.executions|
  {
    CooldownKey(s.handlers[k].config, s.core.executions[k].payload, ControllerOf(s.core.executions[k]))
  }

  /** Cooldown spacing over both routes: of two real executions with one cooldown key, direct or approved, in any
      interleaving and across restarts, the second was checked at least its cooldown (of at most 24 hours)
      after the first was recorded - if it was recorded before that check. */
  lemma ExecutionsSpaced(events: seq<Event>, i: nat, j: nat, at: real)
    requires C.InOrder(CoolTrace(events))
    requires i < |Run(events).handlers| && j < |Run(events).handlers| && RecordedBefore(Run(events), i, j, at)
    ensures var s := Run(events);
      && i < |s.core.executions| && j < |s.core.executions|
      && var cooldown := s.handlers[j].config.cooldownOf(s.core.executions[j].payload.eventType);
      && (KeyOf(s, i) == KeyOf(s, j) && 0.0 < cooldown <= 86_400.0 ==>
        && s.handlers[j].clock.check - at >= cooldown
        && s.handlers[j].clock.check - s.handlers[i].clock.check >= cooldown)
  {
    var s := Run(events);
    RunKeepsHandlers(events);
    CoolIsTrackerRun(events);
    assert Noted(s.core.executions[i], s.handlers[i], s.cool.log) && Noted(s.core.executions[j], s.handlers[j], s.cool.log);
    var u, v := s.handlers[i].slot.value, s.handlers[j].slot.value;
    var r: nat :| r < s.cool.log[v].seen && r < |s.cool.notes| && s.cool.notes[r] == C.Note(u, s.cool.notes[r].key, at);
    C.RunKeepsLog(CoolTrace(events));
    if KeyOf(s, i) == KeyOf(s, j) && 0.0 < s.cool.log[v].cooldown <= C.RETENTION {
      C.CooldownSpacing(CoolTrace(events), r, v);
    }
  }

  /** The cooldown gate says exactly whether an execution with the key was recorded less than the cooldown before. */
  lemma CoolingIffRecent(events: seq<Event>, config: Config, payload: Payload, controller: Option<string>, now: real)
    requires C.InOrder(CoolTrace(events)) && C.Clock(CoolTrace(events)) <= now
    requires config.cooldownOf(payload.eventType) <= 86_400.0
    ensures var s := Run(events);
      Cooling(s.cool, config, payload, controller, now) <==>
        !payload.dryRun
        && C.Recent(s.cool.notes, CooldownKey(config, payload, controller), config.cooldownOf(payload.eventType), now)
  {
    CoolIsTrackerRun(events);
    C.RunForgetsOnlyOld(CoolTrace(events));
    C.RunKeepsLog(CoolTrace(events));
    C.RemainingIffRecent(Run(events).cool, C.Clock(CoolTrace(events)), CooldownKey(config, payload, controller),
                         config.cooldownOf(payload.eventType), now);
  }

  // ----- what the limiter's gates saw -----

  /** The check as the limiter counts it under `key`; without a limit it does not count. */
  function Counted(c: Check, key: string): (calls: seq<R.Timed>)
    ensures R.Limited(calls)
  {
    if c.key == key && c.limit > 0 then [R.Timed(c.now, c.limit)] else []
  }

  function CountedTime(c: Check, key: string): seq<real> {
    if c.key == key && c.limit > 0 then [c.now] else []
  }

  function CountedCall(hits: map<string, seq<real>>, e: Event, key: string): (calls: seq<R.Timed>)
    requires e.request.Webhook?
    ensures R.Limited(calls)
  {
    if ReachesAction(hits, e) then Counted(CallerCheck(e), key) + Counted(ActionCheck(e), key) else Counted(CallerCheck(e), key)
  }

  /** The checks made under a limiter key since the process started. */
  function CallsFor(events: seq<Event>, key: string): (calls: seq<R.Timed>)
    ensures R.Limited(calls)
  {
    if events == [] || events[|events| - 1].request.Restart? then []
    else
      var n := |events| - 1;
      var before, e := CallsFor(events[..n], key), events[n];
      if e.request.Webhook? then before + CountedCall(Run(events[..n]).hits, e, key) else before
  }

  /** The check is under another key, or has a limit of at most `most`. */
  predicate UpTo(c: Check, key: string, most: int) {
    c.key == key ==> 0 < c.limit <= most
  }

  /** Limits under the key may change, but are at most `most`. */
  predicate LimitsUpTo(events: seq<Event>, key: string, most: int) {
    forall i :: 0 <= i < |events| && events[i].request.Webhook? ==>
      UpTo(CallerCheck(events[i]), key, most) && UpTo(ActionCheck(events[i]), key, most)
  }

  lemma {:induction false} CallsUpTo(events: seq<Event>, key: string, most: int)
    requires LimitsUpTo(events, key, most)
    ensures forall i :: 0 <= i < |CallsFor(events, key)| ==> CallsFor(events, key)[i].limit <= most
  {
    if events != [] && !events[|events| - 1].request.Restart? {
      CallsUpTo(events[..|events| - 1], key, most);
    }
  }

  /** The queue under `key`, and what was ever allowed under it, after these checks. */
  ghost predicate Tells(hits: map<string, seq<real>>, key: string, calls: seq<R.Timed>, allowed: seq<real>) {
    R.Limited(calls) && R.Past(R.Queue(hits, key), allowed) == R.RunCalls(calls, WINDOW)
  }

  lemma CheckedQueue(hits: map<string, seq<real>>, c: Check, key: string, calls: seq<R.Timed>, allowed: seq<real>)
    requires Tells(hits, key, calls, allowed)
    ensures Tells(AfterCheck(hits, c), key, calls + Counted(c, key), allowed + if Admits(hits, c) then CountedTime(c, key) else [])
  {
    if c.key == key && c.limit > 0 {
      R.RunCallsSnoc(calls, R.Timed(c.now, c.limit), WINDOW);
      assert allowed + [] == allowed;
    } else {
      assert calls + [] == calls && allowed + [] == allowed;
    }
  }

  /** What the limiter allowed in the two checks of a call. */
  function Allowed(hits: map<string, seq<real>>, e: Event, key: string): seq<real>
    requires e.request.Webhook?
  {
    if ReachesAction(hits, e) then
      CountedTime(CallerCheck(e), key)
      + if Admits(AfterCheck(hits, CallerCheck(e)), ActionCheck(e)) then CountedTime(ActionCheck(e), key) else []
    else if Admits(hits, CallerCheck(e)) then CountedTime(CallerCheck(e), key)
    else []
  }

  lemma SecondCheck(hits: map<string, seq<real>>, c: Check, key: string, calls: seq<R.Timed>, first: seq<R.Timed>,
                    allowed: seq<real>, time: seq<real>)
    requires Tells(hits, key, calls + first, allowed + time)
    ensures Tells(AfterCheck(hits, c), key, calls + (first + Counted(c, key)),
                  allowed + (time + if Admits(hits, c) then CountedTime(c, key) else []))
  {
    var second := if Admits(hits, c) then CountedTime(c, key) else [];
    CheckedQueue(hits, c, key, calls + first, allowed + time);
    Regroup(calls, first, Counted(c, key));
    Regroup(allowed, time, second);
  }

  lemma AllowedInCall(hits: map<string, seq<real>>, e: Event, key: string, calls: seq<R.Timed>, allowed: seq<real>)
    requires e.request.Webhook? && Tells(hits, key, calls, allowed)
    ensures Tells(HitsAfter(hits, e), key, calls + CountedCall(hits, e, key), allowed + Allowed(hits, e, key))
  {
    CheckedQueue(hits, CallerCheck(e), key, calls, allowed);
    if ReachesAction(hits, e) {
      SecondCheck(AfterCheck(hits, CallerCheck(e)), ActionCheck(e), key, calls, Counted(CallerCheck(e), key),
                  allowed, CountedTime(CallerCheck(e), key));
    }
  }

  /** The queue of each key is that of its checks alone. */
  lemma {:induction false} HitsAreRun(events: seq<Event>, key: string)
    ensures Tells(Run(events).hits, key, CallsFor(events, key), R.RunCalls(CallsFor(events, key), WINDOW).allowed)
  {
    if events != [] && !events[|events| - 1].request.Restart? {
      var n := |events| - 1;
      var hits, e := Run(events[..n]).hits, events[n];
      var calls := CallsFor(events[..n], key);
      HitsAreRun(events[..n], key);
      if e.request.Webhook? {
        AllowedInCall(hits, e, key, calls, R.RunCalls(calls, WINDOW).allowed);
      }
    }
  }

  /** The reading under which the limiter let a direct execution pass. */
  function Stamp(x: P.Execution, h: Handler, key: string): seq<real> {
    if !x.Direct? then []
    else if key == CallerKey(x.caller) then [h.clock.caller]
    else if key == ActionKey(x.payload.eventType) then [h.clock.action]
    else []
  }

  /** The readings of the direct executions that the process numbered `boot` started under a limiter key. */
  function Stamps(executions: seq<P.Execution>, handlers: seq<Handler>, boot: nat, key: string): seq<real>
    requires |executions| == |handlers|
  {
    if executions == [] then []
    else
      var n := |executions| - 1;
      Stamps(executions[..n], handlers[..n], boot, key)
      + if handlers[n].boot == boot then Stamp(executions[n], handlers[n], key) else []
  }

  lemma StampsSnoc(executions: seq<P.Execution>, handlers: seq<Handler>, boot: nat, key: string, x: P.Execution, h: Handler)
    requires |executions| == |handlers|
    ensures Stamps(executions + [x], handlers + [h], boot, key) ==
      Stamps(executions, handlers, boot, key) + if h.boot == boot then Stamp(x, h, key) else []
  {
    assert (executions + [x])[..|executions|] == executions && (handlers + [h])[..|executions|] == handlers;
  }

  lemma {:induction false} NoStampsYet(executions: seq<P.Execution>, handlers: seq<Handler>, boot: nat, key: string)
    requires |executions| == |handlers| && forall k :: 0 <= k < |handlers| ==> handlers[k].boot < boot
    ensures Stamps(executions, handlers, boot, key) == []
  {
    if executions != [] {
      var n := |executions| - 1;
      NoStampsYet(executions[..n], handlers[..n], boot, key);
    }
  }

  function Direct(s: Server, key: string): seq<real>
    requires |s.core.executions| == |s.handlers|
  {
    Stamps(s.core.executions, s.handlers, s.boot, key)
  }

  /** A direct execution passed both checks. */
  lemma StartedPassed(s: Server, e: Event)
    requires e.request.Webhook? && P.Started(s.core, Gated(s, e)).Some?
    ensures Admits(s.hits, CallerCheck(e)) && Admits(AfterCheck(s.hits, CallerCheck(e)), ActionCheck(e)) && ReachesAction(s.hits, e)
    ensures var x := P.Started(s.core, Gated(s, e)).value;
      x.Direct? && x.caller == e.request.key && x.payload == e.request.payload
  {
  }

  lemma DirectAfter(s: Server, e: Event, key: string)
    requires HandlersInv(s)
    ensures HandlersInv(Step(s, e))
    ensures var x := P.Started(s.core, Gated(s, e));
      Direct(Step(s, e), key) ==
        if e.request.Restart? then []
        else if x.Some? && e.request.Webhook? then Direct(s, key) + Stamp(x.value, NewHandlers(s, e)[0], key)
        else Direct(s, key)
  {
    HandlersStep(s, e);
    ExecutionsAfter(s, e);
    var x := P.Started(s.core, Gated(s, e));
    if e.request.Restart? {
      DirectGone(s, Step(s, e), key);
    } else if x.Some? {
      DirectGrows(s, Step(s, e), x.value, NewHandlers(s, e)[0], key);
    } else {
      assert s.handlers + [] == s.handlers;
    }
  }

  lemma DirectGone(s: Server, t: Server, key: string)
    requires HandlersInv(s) && t.boot == s.boot + 1
    requires t.core.executions == s.core.executions && t.handlers == s.handlers
    ensures Direct(t, key) == []
  {
    NoStampsYet(s.core.executions, s.handlers, t.boot, key);
  }

  lemma DirectGrows(s: Server, t: Server, x: P.Execution, h: Handler, key: string)
    requires HandlersInv(s) && t.boot == s.boot == h.boot
    requires t.core.executions == s.core.executions + [x] && t.handlers == s.handlers + [h]
    ensures Direct(t, key) == if x.Direct? then Direct(s, key) + Stamp(x, h, key) else Direct(s, key)
  {
    StampsSnoc(s.core.executions, s.handlers, s.boot, key, x, h);
  }

  function CountIn(times: seq<real>, from: real, upto: real): nat {
    |R.Within(times, from, upto)|
  }

  lemma {:induction false} CountAppend(a: seq<real>, b: seq<real>, from: real, upto: real)
    ensures CountIn(a + b, from, upto) == CountIn(a, from, upto) + CountIn(b, from, upto)
    decreases |b|
  {
    if b == [] {
      assert a + b == a;
    } else {
      var n := |b| - 1;
      assert a + b == (a + b[..n]) + [b[n]] && b == b[..n] + [b[n]];
      CountAppend(a, b[..n], from, upto);
      R.WithinSnoc(a + b[..n], b[n], from, upto);
      R.WithinSnoc(b[..n], b[n], from, upto);
    }
  }

  lemma KeysOfLimiterDiffer(a: string, b: string)
    ensures CallerKey(a) != ActionKey(b)
  {
    assert CallerKey(a)[0] == 'c' && ActionKey(b)[0] == 'a';
  }

  /** In every window, direct executions are at most the calls that the limiter allowed. */
  lemma {:induction false} DirectWasAllowed(events: seq<Event>, key: string, most: int, from: real, upto: real)
    requires LimitsUpTo(events, key, most)
    ensures HandlersInv(Run(events))
    ensures CountIn(Direct(Run(events), key), from, upto) <= CountIn(R.RunCalls(CallsFor(events, key), WINDOW).allowed, from, upto)
  {
    RunKeepsHandlers(events);
    if events != [] {
      var n := |events| - 1;
      var s, e := Run(events[..n]), events[n];
      DirectWasAllowed(events[..n], key, most, from, upto);
      DirectAfter(s, e, key);
      if e.request.Webhook? {
        var calls := CallsFor(events[..n], key);
        HitsAreRun(events[..n], key);
        CheckedStep(s, e, key, most, calls, R.RunCalls(calls, WINDOW).allowed, from, upto);
      }
    }
  }

  lemma StampIsCounted(s: Server, e: Event, key: string, most: int)
    requires e.request.Webhook? && P.Started(s.core, Gated(s, e)).Some?
    requires UpTo(CallerCheck(e), key, most) && UpTo(ActionCheck(e), key, most)
    ensures Stamp(P.Started(s.core, Gated(s, e)).value, NewHandlers(s, e)[0], key) == Allowed(s.hits, e, key)
  {
    StartedPassed(s, e);
    KeysOfLimiterDiffer(e.request.key, e.request.payload.eventType);
  }

  lemma CheckedStep(s: Server, e: Event, key: string, most: int, calls: seq<R.Timed>, allowed: seq<real>, from: real, upto: real)
    requires HandlersInv(s) && e.request.Webhook?
    requires UpTo(CallerCheck(e), key, most) && UpTo(ActionCheck(e), key, most)
    requires Tells(s.hits, key, calls, allowed)
    requires CountIn(Direct(s, key), from, upto) <= CountIn(allowed, from, upto)
    ensures HandlersInv(Step(s, e)) && R.Limited(calls + CountedCall(s.hits, e, key))
    ensures CountIn(Direct(Step(s, e), key), from, upto) <=
      CountIn(R.RunCalls(calls + CountedCall(s.hits, e, key), WINDOW).allowed, from, upto)
  {
    DirectAfter(s, e, key);
    AllowedInCall(s.hits, e, key, calls, allowed);
    CountAppend(allowed, Allowed(s.hits, e, key), from, upto);
    if P.Started(s.core, Gated(s, e)).Some? {
      StampIsCounted(s, e, key, most);
      CountAppend(Direct(s, key), Allowed(s.hits, e, key), from, upto);
    }
  }

  lemma LimiterBound(events: seq<Event>, key: string, most: int, d: real, from: real, t: real)
    requires most >= 0 && d >= 0.0 && LimitsUpTo(events, key, most) && R.Skewed(R.ReadingsOf(CallsFor(events, key)), d)
    requires from == t - (WINDOW - d)
    ensures HandlersInv(Run(events)) && CountIn(Direct(Run(events), key), from, t) <= most
  {
    DirectWasAllowed(events, key, most, from, t);
    CallsUpTo(events, key, most);
    R.SkewBoundCalls(CallsFor(events, key), most, WINDOW, d, from, t);
  }

  /** The caller's limit, which depends on a role that is read again on every call, is never more than `most`. */
  predicate CallerUpTo(events: seq<Event>, caller: string, most: int) {
    forall i :: 0 <= i < |events| && events[i].request.Webhook? && events[i].request.key == caller ==>
      0 < CallerCheck(events[i]).limit <= most
  }

  predicate ActionUpTo(events: seq<Event>, action: string, most: int) {
    forall i :: 0 <= i < |events| && events[i].request.Webhook? && events[i].request.payload.eventType == action ==>
      0 < ActionCheck(events[i]).limit <= most
  }

  /** The direct executions that a process started for one caller: in any window, at most the highest limit the
      caller had. The window is the limiter's, less the time d by which clock readings may be out of order. */
  lemma CallerWithinLimit(events: seq<Event>, caller: string, most: int, d: real, from: real, t: real)
    requires most >= 0 && d >= 0.0 && R.Skewed(R.ReadingsOf(CallsFor(events, CallerKey(caller))), d) && from == t - (60.0 - d)
    requires CallerUpTo(events, caller, most)
    ensures HandlersInv(Run(events)) && CountIn(Direct(Run(events), CallerKey(caller)), from, t) <= most
  {
    forall i | 0 <= i < |events| && events[i].request.Webhook?
      ensures UpTo(CallerCheck(events[i]), CallerKey(caller), most) && UpTo(ActionCheck(events[i]), CallerKey(caller), most)
    {
      KeysOfLimiterDiffer(caller, events[i].request.payload.eventType);
      SameCaller(events[i].request.key, caller);
    }
    LimiterBound(events, CallerKey(caller), most, d, from, t);
  }

  /** Likewise for the direct executions of one action, whoever called. */
  lemma ActionWithinLimit(events: seq<Event>, action: string, most: int, d: real, from: real, t: real)
    requires most >= 0 && d >= 0.0 && R.Skewed(R.ReadingsOf(CallsFor(events, ActionKey(action))), d) && from == t - (60.0 - d)
    requires ActionUpTo(events, action, most)
    ensures HandlersInv(Run(events)) && CountIn(Direct(Run(events), ActionKey(action)), from, t) <= most
  {
    forall i | 0 <= i < |events| && events[i].request.Webhook?
      ensures UpTo(CallerCheck(events[i]), ActionKey(action), most) && UpTo(ActionCheck(events[i]), ActionKey(action), most)
    {
      KeysOfLimiterDiffer(events[i].request.key, action);
      SameAction(events[i].request.payload.eventType, action);
    }
    LimiterBound(events, ActionKey(action), most, d, from, t);
  }

  lemma SameCaller(a: string, b: string)
    ensures CallerKey(a) == CallerKey(b) ==> a == b
  {
    assert CallerKey(a)[|"caller:"|..] == a && CallerKey(b)[|"caller:"|..] == b;
  }

  lemma SameAction(a: string, b: string)
    ensures ActionKey(a) == ActionKey(b) ==> a == b
  {
    assert ActionKey(a)[|"action:"|..] == a && ActionKey(b)[|"action:"|..] == b;
  }

  /** The limiter admits a check exactly if fewer calls than its limit were allowed in the window before it, over
      the whole run and whatever the earlier limits were. */
  lemma AdmitsIffRoom(events: seq<Event>, c: Check, from: real)
    requires c.limit > 0 && from == c.now - 60.0
    requires R.Ordered(R.ReadingsOf(CallsFor(events, c.key))) && R.NoneLater(R.ReadingsOf(CallsFor(events, c.key)), c.now)
    ensures Admits(Run(events).hits, c) <==>
      CountIn(R.RunCalls(CallsFor(events, c.key), WINDOW).allowed, from, c.now) < c.limit
  {
    HitsAreRun(events, c.key);
    AdmittedByQueue(Run(events).hits, c, CallsFor(events, c.key), from);
  }

  lemma AdmittedByQueue(hits: map<string, seq<real>>, c: Check, calls: seq<R.Timed>, from: real)
    requires R.Limited(calls) && c.limit > 0 && R.Ordered(R.ReadingsOf(calls)) && R.NoneLater(R.ReadingsOf(calls), c.now)
    requires from == c.now - WINDOW && Tells(hits, c.key, calls, R.RunCalls(calls, WINDOW).allowed)
    ensures Admits(hits, c) <==> CountIn(R.RunCalls(calls, WINDOW).allowed, from, c.now) < c.limit
  {
    R.AdmittedIffRoom(calls, R.Timed(c.now, c.limit), WINDOW, from);
  }
}
