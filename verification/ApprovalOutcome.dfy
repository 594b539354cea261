/** What becomes of each request over whole runs. The protocol refines a simpler machine that only knows which
    requests wait, in which order they came, which were claimed and which were turned down; failed saves and
    restarts decide how much of it holds. */
module ApprovalOutcome {
  import opened Json
  import opened Sequences
  import opened ApprovalQueue
  import opened ApprovalProtocol

  datatype View = View(pending: seq<Item>, arrivals: seq<Item>, claims: seq<string>, turned: set<string>)

  /** The ids of the claims, in order. */
  function ClaimOrder(executions: seq<Execution>): seq<string> {
    if executions == [] then []
    else
      var last := executions[|executions| - 1];
      ClaimOrder(executions[..|executions| - 1]) + if last.ByApproval? then [last.id] else []
  }

  function TurnedDown(s: State): set<string> {
    s.rejected + s.revoked
  }

  function ViewOf(s: State): View {
    View(PendingOf(s.queue), s.arrivals, ClaimOrder(s.executions), TurnedDown(s))
  }

  function Apply(v: View, f: Effect): View {
    match f
    case Nothing => v
    case Arrives(x) => v.(pending := v.pending + [x], arrivals := v.arrivals + [x])
    case IsClaimed(id) => v.(pending := Others(v.pending, id), claims := v.claims + [id])
    case IsTurnedDown(id) => v.(pending := Others(v.pending, id), turned := v.turned + {id})
  }

  predicate Waits(v: View, id: string) {
    exists x :: x in v.pending && x.id == id
  }

  /** Only a waiting request is decided, and only a new one arrives. */
  ghost predicate Fits(v: View, f: Effect) {
    match f
    case Nothing => true
    case Arrives(x) => x.id !in v.claims && x.id !in v.turned
    case IsClaimed(id) => Waits(v, id)
    case IsTurnedDown(id) => Waits(v, id)
  }

  // ----- the protocol refines the view -----

  lemma ClaimOrderSnoc(executions: seq<Execution>, e: Execution)
    ensures ClaimOrder(executions + [e]) == ClaimOrder(executions) + if e.ByApproval? then [e.id] else []
  {
    assert (executions + [e])[..|executions|] == executions;
  }

  lemma {:induction false} ClaimOrderMembers(executions: seq<Execution>)
    ensures forall id :: id in ClaimOrder(executions) <==> id in ClaimedIds(executions)
  {
    if executions != [] {
      var n := |executions| - 1;
      ClaimOrderMembers(executions[..n]);
      ClaimedSnoc(executions[..n], executions[n]);
      assert executions == executions[..n] + [executions[n]];
    }
  }

  /** What the queue that a step saves means for the pending requests. */
  ghost predicate PendingRefines(s: State, q: Option<seq<Item>>, f: Effect) {
    && PendingOf(if q.Some? then Prune(q.value) else s.queue) == Apply(ViewOf(s), f).pending
    && (f.IsClaimed? || f.IsTurnedDown? ==> Waits(ViewOf(s), f.id))
  }

  lemma DecidedView(s: State, i: nat, y: Item, f: Effect)
    requires DistinctIds(s.queue) && i < |s.queue| && s.queue[i].status.Pending? && !y.status.Pending?
    requires (f.IsClaimed? || f.IsTurnedDown?) && f.id == s.queue[i].id
    ensures PendingRefines(s, Some(s.queue[i := y]), f)
  {
    PruneKeeps(s.queue[i := y]);
    PendingProcessed(s.queue, i, y);
    assert s.queue[i] in s.queue;
    PendingMembers(s.queue, s.queue[i]);
    assert s.queue[i] in ViewOf(s).pending;
  }

  /** An outcome is recorded in an entry that is claimed, so not pending - whether or not it was pruned. */
  lemma {:induction false} ReturnedView(s: State, id: string, outcome: Option<bool>)
    requires forall x :: x in PendingOf(s.queue) ==> x.id != id
    ensures PendingOf(Prune(AfterFinish(s.queue, id, outcome))) == PendingOf(s.queue)
  {
    PruneKeeps(AfterFinish(s.queue, id, outcome));
    var i := Find(s.queue, id);
    if i.Some? {
      var x := s.queue[i.value];
      assert x in s.queue;
      PendingMembers(s.queue, x);
      PendingKept(s.queue, i.value, Recorded(x, outcome));
    }
  }

  lemma WebhookView(s: State, e: Event)
    requires e.Webhook?
    ensures PendingRefines(s, Saving(s, e), EffectOf(s, e))
  {
    var f := EffectOf(s, e);
    if f.Arrives? {
      PendingSnoc(s.queue, f.x);
      PruneKeeps(s.queue + [f.x]);
    }
  }

  lemma ApproveView(s: State, e: Event)
    requires e.Approve? && DistinctIds(s.queue)
    ensures PendingRefines(s, Saving(s, e), EffectOf(s, e))
  {
    var d := DecideApprove(s.queue, e.id, e.key, e.policy, e.cooling);
    if d.Granted? {
      var i := Find(s.queue, e.id).value;
      DecidedView(s, i, Claimed(s.queue[i], e.key, e.policy.roleOf(e.key)), IsClaimed(e.id));
    } else if d.Revoked? {
      var i := Find(s.queue, e.id).value;
      DecidedView(s, i, RevokedItem(s.queue[i]), IsTurnedDown(e.id));
    }
  }

  lemma RejectView(s: State, e: Event)
    requires e.Reject? && DistinctIds(s.queue)
    ensures PendingRefines(s, Saving(s, e), EffectOf(s, e))
  {
    if DecideReject(s.queue, e.id, e.key, e.policy).Granted? {
      var i := Find(s.queue, e.id).value;
      DecidedView(s, i, RejectedItem(s.queue[i], e.key, e.policy.roleOf(e.key)), IsTurnedDown(e.id));
    }
  }

  lemma {:induction false} ReturnView(s: State, e: Event)
    requires e.Return?
    requires forall x :: x in PendingOf(s.queue) ==> x.id !in ClaimedIds(s.executions)
    ensures PendingRefines(s, Saving(s, e), EffectOf(s, e))
  {
    if Returning(s, e).Some? {
      var x := s.executions[s.flights[e.flight].execution];
      assert x in s.executions;
      ReturnedView(s, x.id, e.outcome);
    }
  }

  lemma {:induction false} PendingView(s: State, e: Event)
    requires DistinctIds(s.queue) && !e.Restart?
    requires forall x :: x in PendingOf(s.queue) ==> x.id !in ClaimedIds(s.executions)
    ensures PendingRefines(s, Saving(s, e), EffectOf(s, e))
  {
    match e
    case Webhook(_, _, _, _, _, _) => WebhookView(s, e);
    case Approve(_, _, _, _, _) => ApproveView(s, e);
    case Reject(_, _, _, _) => RejectView(s, e);
    case Return(_, _, _) => ReturnView(s, e);
    case Abort(_) =>
    case Audit(_) =>
  }

  lemma ViewTook(s: State, t: State, x: Option<Execution>, q: Option<seq<Item>>, saved: bool, f: Effect)
    requires Took(s, t, x, q, saved, f) && PendingRefines(s, q, f)
    requires if f.IsClaimed? then x.Some? && x.value.ByApproval? && x.value.id == f.id else x.Some? ==> x.value.Direct?
    ensures ViewOf(t) == Apply(ViewOf(s), f)
  {
    if x.Some? {
      ClaimOrderSnoc(s.executions, x.value);
    }
  }

  lemma NewIdFits(s: State, x: Item)
    requires Known(s) && x.id !in s.queued
    ensures Fits(ViewOf(s), Arrives(x))
  {
    ClaimOrderMembers(s.executions);
  }

  /** Every step but a restart is one step of the view. */
  lemma StepRefines(s: State, e: Event)
    requires QueueInv(s) && ClaimsInv(ViewOf(s)) && Admissible(s, e) && !e.Restart?
    ensures ViewOf(Next(s, e)) == Apply(ViewOf(s), EffectOf(s, e)) && Fits(ViewOf(s), EffectOf(s, e))
  {
    ClaimOrderMembers(s.executions);
    PendingView(s, e);
    StepTook(s, e);
    EffectStarts(s, e);
    EffectsHeld(s, e);
    ViewTook(s, Next(s, e), Started(s, e), Saving(s, e), Saved(e), EffectOf(s, e));
    if EffectOf(s, e).Arrives? {
      NewIdFits(s, EffectOf(s, e).x);
    }
  }

  // ----- how much holds -----

  ghost predicate ClaimsInv(v: View) {
    Distinct(v.claims) && forall x :: x in v.pending ==> x.id !in v.claims
  }

  ghost predicate TurnedInv(v: View) {
    (forall x :: x in v.pending ==> x.id !in v.turned) && forall id :: id in v.claims ==> id !in v.turned
  }

  /** The arrivals that are not settled, in their order. */
  function Unsettled(arrivals: seq<Item>, settled: set<string>): seq<Item> {
    if arrivals == [] then []
    else if arrivals[0].id in settled then Unsettled(arrivals[1..], settled)
    else [arrivals[0]] + Unsettled(arrivals[1..], settled)
  }

  function SettledIn(v: View): set<string> {
    (set id | id in v.claims) + v.turned
  }

  ghost predicate OrderInv(v: View) {
    v.pending == Unsettled(v.arrivals, SettledIn(v))
  }

  /** What a restart may find on disk: no claimed request pending; nor one that was turned down; or exactly
      the requests pending that are waiting. */
  datatype Care = Claims | Decisions | Waiting

  ghost predicate Survives(s: State, care: Care) {
    match care
    case Claims => forall x :: x in PendingOf(s.disk) ==> x.id !in ClaimedIds(s.executions)
    case Decisions => forall x :: x in PendingOf(s.disk) ==> x.id !in Settled(s)
    case Waiting => PendingOf(s.disk) == PendingOf(s.queue)
  }

  ghost predicate Careful(events: seq<Event>, care: Care) {
    events == [] ||
    (var n := |events| - 1; Careful(events[..n], care) && (events[n].Restart? ==> Survives(Run(events[..n]), care)))
  }

  ghost predicate Inv(v: View, care: Care) {
    && ClaimsInv(v)
    && (!care.Claims? ==> TurnedInv(v))
    && (care.Waiting? ==> OrderInv(v))
  }

  lemma {:induction false} UnsettledSnoc(arrivals: seq<Item>, x: Item, settled: set<string>)
    requires x.id !in settled
    ensures Unsettled(arrivals + [x], settled) == Unsettled(arrivals, settled) + [x]
    decreases |arrivals|
  {
    var all := arrivals + [x];
    if arrivals == [] {
      assert all[1..] == [];
    } else {
      assert all[1..] == arrivals[1..] + [x];
      UnsettledSnoc(arrivals[1..], x, settled);
    }
  }

  lemma {:induction false} UnsettledDecided(arrivals: seq<Item>, settled: set<string>, id: string)
    ensures Unsettled(arrivals, settled + {id}) == Others(Unsettled(arrivals, settled), id)
    decreases |arrivals|
  {
    if arrivals != [] {
      UnsettledDecided(arrivals[1..], settled, id);
      OthersCons(arrivals[0], Unsettled(arrivals[1..], settled), id);
    }
  }

  lemma {:induction false} UnsettledMembers(arrivals: seq<Item>, settled: set<string>)
    ensures forall x :: x in Unsettled(arrivals, settled) <==> x in arrivals && x.id !in settled
    decreases |arrivals|
  {
    if arrivals != [] {
      UnsettledMembers(arrivals[1..], settled);
      assert arrivals == [arrivals[0]] + arrivals[1..];
    }
  }

  lemma ApplyKeeps(v: View, f: Effect, care: Care)
    requires Inv(v, care) && Fits(v, f)
    ensures Inv(Apply(v, f), care)
  {
    match f
    case Nothing =>
    case Arrives(x) => UnsettledSnoc(v.arrivals, x, SettledIn(v));
    case IsClaimed(id) =>
      OthersMembers(v.pending, id);
      assert SettledIn(Apply(v, f)) == SettledIn(v) + {id};
      UnsettledDecided(v.arrivals, SettledIn(v), id);
    case IsTurnedDown(id) =>
      OthersMembers(v.pending, id);
      assert SettledIn(Apply(v, f)) == SettledIn(v) + {id};
      UnsettledDecided(v.arrivals, SettledIn(v), id);
  }

  lemma RestartKeeps(s: State, care: Care)
    requires QueueInv(s) && Inv(ViewOf(s), care) && Survives(s, care)
    ensures Inv(ViewOf(Next(s, Restart)), care)
  {
    ClaimOrderMembers(s.executions);
  }

  lemma {:induction false} RunInv(events: seq<Event>, care: Care)
    requires Proper(events) && Careful(events, care)
    ensures Inv(ViewOf(Run(events)), care)
  {
    if events != [] {
      var n := |events| - 1;
      var s := Run(events[..n]);
      RunInv(events[..n], care);
      RunKeeps(events[..n]);
      if events[n].Restart? {
        RestartKeeps(s, care);
      } else {
        StepRefines(s, events[n]);
        ApplyKeeps(ViewOf(s), EffectOf(s, events[n]), care);
      }
    }
  }

  // ----- the promises -----

  ghost predicate OnceEach(executions: seq<Execution>) {
    forall i, j :: 0 <= i < j < |executions| && executions[i].ByApproval? && executions[j].ByApproval? ==>
      executions[i].id != executions[j].id
  }

  lemma {:induction false} DistinctClaims(executions: seq<Execution>)
    requires Distinct(ClaimOrder(executions))
    ensures OnceEach(executions)
  {
    if executions != [] {
      var n := |executions| - 1;
      var before, all := ClaimOrder(executions[..n]), ClaimOrder(executions);
      assert before == all[..|before|];
      DistinctClaims(executions[..n]);
      ClaimOrderMembers(executions[..n]);
      forall i | 0 <= i < n && executions[i].ByApproval? && executions[n].ByApproval?
        ensures executions[i].id != executions[n].id
      {
        assert executions[i] in executions[..n];
        assert executions[i].id in ClaimedIds(executions[..n]);
        var k :| 0 <= k < |before| && before[k] == executions[i].id;
        assert all[k] != all[|before|];
      }
    }
  }

  /** At most once: whatever the interleaving of requests, claims, returns, prunings and restarts, and whatever
      saves fail, no approval id is handed to execute_action twice - if no restart finds a claimed request
      pending on disk. */
  lemma AtMostOnce(events: seq<Event>)
    requires Proper(events) && Careful(events, Claims)
    ensures OnceEach(Run(events).executions)
  {
    RunInv(events, Claims);
    DistinctClaims(Run(events).executions);
  }

  ghost predicate TurnedDownNeverRun(s: State) {
    forall e :: e in s.executions && e.ByApproval? ==> e.id !in TurnedDown(s)
  }

  /** An id that an approver rejected, or whose requester lost the permission, is never executed - if no restart
      finds a claimed, rejected or revoked request pending on disk. */
  lemma RejectedNeverExecutes(events: seq<Event>)
    requires Proper(events) && Careful(events, Decisions)
    ensures TurnedDownNeverRun(Run(events))
  {
    RunInv(events, Decisions);
    ClaimOrderMembers(Run(events).executions);
    forall e | e in Run(events).executions && e.ByApproval?
      ensures e.id !in TurnedDown(Run(events))
    {
      assert e.id in ClaimedIds(Run(events).executions);
    }
  }

  /** The pending entries of the queue are exactly the requests that were not settled, unchanged and in the
      order they were queued. */
  ghost predicate NoneLost(s: State) {
    PendingOf(s.queue) == Unsettled(s.arrivals, Settled(s))
  }

  /** No request is lost, and none overtakes another, if every restart finds on disk what is waiting; claimed and
      turned-down ids are then disjoint. */
  lemma NoRequestLost(events: seq<Event>)
    requires Proper(events) && Careful(events, Waiting)
    ensures var s := Run(events);
      && NoneLost(s)
      && ClaimedIds(s.executions) !! TurnedDown(s)
      && (forall id :: id in s.queued && id !in Settled(s) ==> s.queued[id] in s.queue)
      && (s.synced ==> s.disk == s.queue)
  {
    var s := Run(events);
    RunInv(events, Waiting);
    RunKeeps(events);
    ClaimOrderMembers(s.executions);
    assert SettledIn(ViewOf(s)) == Settled(s);
    UnsettledMembers(s.arrivals, Settled(s));
    forall id | id in s.queued && id !in Settled(s)
      ensures s.queued[id] in s.queue
    {
      PendingMembers(s.queue, s.queued[id]);
    }
  }

  // ----- exactly when a restart is safe -----

  predicate NoRestart(events: seq<Event>) {
    forall i :: 0 <= i < |events| ==> !events[i].Restart?
  }

  function After(events: seq<Event>, more: seq<Event>): State {
    Run(events + [Restart] + more)
  }

  lemma {:induction false} CarefulAfter(events: seq<Event>, more: seq<Event>, care: Care)
    requires Careful(events, care) && Survives(Run(events), care) && NoRestart(more)
    ensures Careful(events + [Restart] + more, care)
    decreases |more|
  {
    var all := events + [Restart] + more;
    var n := |all| - 1;
    if more == [] {
      assert all == events + [Restart] && all[..n] == events;
    } else {
      assert all[..n] == events + [Restart] + more[..|more| - 1];
      CarefulAfter(events, more[..|more| - 1], care);
    }
  }

  /** A policy under which everybody may do everything. */
  const ALLOW_ALL := Policy(
    _ => "admin", (_, _) => true, (_, _) => true, (_, _) => true, _ => true, _ => None, _ => true)

  function ClaimOf(x: Item): Event {
    Approve(x.id, x.requestedBy + "'", ALLOW_ALL, false, true)
  }

  function RejectionOf(x: Item): Event {
    Reject(x.id, x.requestedBy + "'", ALLOW_ALL, true)
  }

  function AfterRestart(s: State, e: Event): State {
    Next(Next(s, Restart), e)
  }

  lemma AfterOne(events: seq<Event>, e: Event)
    requires Proper(events) && !e.Webhook? && !e.Restart?
    ensures Proper(events + [Restart] + [e]) && NoRestart([e])
    ensures After(events, [e]) == AfterRestart(Run(events), e)
  {
    RunTwo(events, Restart, e);
  }

  lemma RunTwo(events: seq<Event>, d: Event, e: Event)
    ensures Run(events + [d] + [e]) == Next(Next(Run(events), d), e)
    ensures Proper(events) && !d.Webhook? && !e.Webhook? ==> Proper(events + [d] + [e])
  {
    RunSnoc(events, d);
    RunSnoc(events + [d], e);
  }

  lemma PendingIsFound(q: seq<Item>, x: Item)
    requires DistinctIds(q) && x in PendingOf(q)
    ensures Find(q, x.id).Some? && q[Find(q, x.id).value] == x && x.status.Pending?
  {
    PendingMembers(q, x);
    var i :| 0 <= i < |q| && q[i] == x;
    OnlyWithId(q, i);
  }

  lemma CanBeClaimed(s: State, x: Item)
    requires DistinctIds(s.queue) && x in PendingOf(s.queue)
    ensures var f := Started(s, ClaimOf(x)); f.Some? && f.value.ByApproval? && f.value.id == x.id
    ensures EffectOf(s, ClaimOf(x)) == IsClaimed(x.id)
  {
    PendingIsFound(s.queue, x);
    assert |x.requestedBy + "'"| != |x.requestedBy|;
  }

  lemma CanBeRejected(s: State, x: Item)
    requires DistinctIds(s.queue) && x in PendingOf(s.queue)
    ensures Started(s, RejectionOf(x)).None? && EffectOf(s, RejectionOf(x)) == IsTurnedDown(x.id)
  {
    PendingIsFound(s.queue, x);
    assert |x.requestedBy + "'"| != |x.requestedBy|;
  }

  lemma ClaimedFromDisk(s: State, x: Item) returns (f: Execution)
    requires DistinctIds(s.disk) && x in PendingOf(s.disk)
    ensures var t := AfterRestart(s, ClaimOf(x));
      f.ByApproval? && f.id == x.id && t.executions == s.executions + [f] && TurnedDown(t) == TurnedDown(s)
  {
    var t := Next(s, Restart);
    CanBeClaimed(t, x);
    StepTook(t, ClaimOf(x));
    f := Started(t, ClaimOf(x)).value;
  }

  lemma RejectedFromDisk(s: State, x: Item)
    requires DistinctIds(s.disk) && x in PendingOf(s.disk)
    ensures var t := AfterRestart(s, RejectionOf(x)); t.executions == s.executions && x.id in TurnedDown(t)
  {
    var t := Next(s, Restart);
    CanBeRejected(t, x);
    StepTook(t, RejectionOf(x));
  }

  lemma OnlyWithId(q: seq<Item>, i: nat)
    requires DistinctIds(q) && i < |q|
    ensures Find(q, q[i].id) == Some(i)
  {
    assert q[i] in q;
    assert Find(q, q[i].id).Some?;
  }

  /** The exact condition for at-most-once: after a restart, runs without a further one execute no id twice
      exactly if the disk had no claimed request pending. Other lost saves do no harm. */
  lemma RestartRepeatsNoneIff(events: seq<Event>)
    requires Proper(events) && Careful(events, Claims)
    ensures (forall more :: NoRestart(more) && Proper(events + [Restart] + more) ==> OnceEach(After(events, more).executions))
      <==> Survives(Run(events), Claims)
  {
    var s := Run(events);
    if Survives(s, Claims) {
      forall more | NoRestart(more) && Proper(events + [Restart] + more)
        ensures OnceEach(After(events, more).executions)
      {
        CarefulAfter(events, more, Claims);
        AtMostOnce(events + [Restart] + more);
      }
    } else {
      var x :| x in PendingOf(s.disk) && x.id in ClaimedIds(s.executions);
      RunKeeps(events);
      AfterOne(events, ClaimOf(x));
      var f := ClaimedFromDisk(s, x);
      ClaimedTwice(s.executions, f);
    }
  }

  lemma ClaimedTwice(executions: seq<Execution>, f: Execution)
    requires f.ByApproval? && f.id in ClaimedIds(executions)
    ensures !OnceEach(executions + [f])
  {
    var e :| e in executions && e.ByApproval? && e.id == f.id;
    var i :| 0 <= i < |executions| && executions[i] == e;
    var all := executions + [f];
    assert all[i] == e && all[|executions|] == f;
  }

  /** Likewise for rejections and revocations: exactly if the disk had no settled request pending. */
  lemma RestartRevivesNoneIff(events: seq<Event>)
    requires Proper(events) && Careful(events, Decisions)
    ensures (forall more :: NoRestart(more) && Proper(events + [Restart] + more) ==> TurnedDownNeverRun(After(events, more)))
      <==> Survives(Run(events), Decisions)
  {
    var s := Run(events);
    if Survives(s, Decisions) {
      forall more | NoRestart(more) && Proper(events + [Restart] + more)
        ensures TurnedDownNeverRun(After(events, more))
      {
        CarefulAfter(events, more, Decisions);
        RejectedNeverExecutes(events + [Restart] + more);
      }
    } else {
      var x :| x in PendingOf(s.disk) && x.id in Settled(s);
      RunKeeps(events);
      AfterOne(events, ClaimOf(x));
      AfterOne(events, RejectionOf(x));
      SettledRevived(s, x);
    }
  }

  /** And for losing or reordering requests: none is exactly if the disk had the very requests pending that wait. A
      lost save of a result, say, does no harm. */
  lemma RestartLosesNoneIff(events: seq<Event>)
    requires Proper(events) && Careful(events, Waiting)
    ensures (forall more :: NoRestart(more) && Proper(events + [Restart] + more) ==> NoneLost(After(events, more)))
      <==> Survives(Run(events), Waiting)
  {
    if Survives(Run(events), Waiting) {
      forall more | NoRestart(more) && Proper(events + [Restart] + more)
        ensures NoneLost(After(events, more))
      {
        CarefulAfter(events, more, Waiting);
        NoRequestLost(events + [Restart] + more);
      }
    } else {
      NoRequestLost(events);
      AfterNothing(events);
      OtherDiskLoses(Run(events));
    }
  }

  lemma AfterNothing(events: seq<Event>)
    requires Proper(events)
    ensures NoRestart([]) && Proper(events + [Restart] + []) && After(events, []) == Next(Run(events), Restart)
  {
    RunSnoc(events, Restart);
    assert events + [Restart] + [] == events + [Restart];
  }

  lemma OtherDiskLoses(s: State)
    requires NoneLost(s) && PendingOf(s.disk) != PendingOf(s.queue)
    ensures !NoneLost(Next(s, Restart))
  {
  }

  lemma SettledRevived(s: State, x: Item)
    requires DistinctIds(s.disk) && x in PendingOf(s.disk) && x.id in Settled(s)
    ensures !TurnedDownNeverRun(AfterRestart(s, ClaimOf(x))) || !TurnedDownNeverRun(AfterRestart(s, RejectionOf(x)))
  {
    var f := ClaimedFromDisk(s, x);
    RejectedFromDisk(s, x);
    if x.id in ClaimedIds(s.executions) {
      var e :| e in s.executions && e.ByApproval? && e.id == x.id;
      assert e in AfterRestart(s, RejectionOf(x)).executions;
    } else {
      assert f in AfterRestart(s, ClaimOf(x)).executions;
    }
  }

  /** Such a disk can come about: if the save of a claim fails, the old queue is still there. */
  lemma {:induction false} FailedClaimSave(pol: Policy, requester: string, payload: Payload, id: string, gates: Gates, approver: string)
    requires DecideWebhook(pol, requester, payload, gates).Enqueue?
    requires approver != requester && pol.can(pol.roleOf(approver), "approve_actions")
    ensures var events := [] + [Webhook(requester, payload, id, pol, gates, true)] + [Approve(id, approver, pol, false, false)];
      Proper(events) && Careful(events, Claims) && !Survives(Run(events), Claims)
  {
    var submit, claim := Webhook(requester, payload, id, pol, gates, true), Approve(id, approver, pol, false, false);
    var x := NewItem(pol, requester, payload, id, DecideWebhook(pol, requester, payload, gates).controller);
    RunSnoc([], submit);
    RunSnoc([] + [submit], claim);
    assert ([] + [submit] + [claim])[..1] == [] + [submit];
    SubmitAlone(submit, x);
    assert Next(START, submit).disk == [x];
    ClaimUnsaved(Next(START, submit), x, claim);
  }

  /** And if the save of a new request fails, a restart loses it: neither waiting nor settled. */
  lemma {:induction false} FailedSubmitSave(pol: Policy, requester: string, payload: Payload, id: string, gates: Gates)
    requires DecideWebhook(pol, requester, payload, gates).Enqueue?
    ensures var events := [] + [Webhook(requester, payload, id, pol, gates, false)];
      && Proper(events) && Careful(events, Waiting) && !Survives(Run(events), Waiting)
      && var s := Run(events + [Restart]); id in s.queued && id !in Settled(s) && s.queue == []
  {
    var submit := Webhook(requester, payload, id, pol, gates, false);
    var x := NewItem(pol, requester, payload, id, DecideWebhook(pol, requester, payload, gates).controller);
    RunSnoc([], submit);
    RunSnoc([] + [submit], Restart);
    assert ([] + [submit])[..0] == [];
    SubmitAlone(submit, x);
    StepTook(START, submit);
    PendingOne(x);
  }

  lemma PendingOne(x: Item)
    requires x.status.Pending?
    ensures PendingOf([x]) == [x]
  {
    assert [x] == [] + [x];
    PendingSnoc([], x);
  }

  lemma SubmitAlone(submit: Event, x: Item)
    requires submit.Webhook? && EffectOf(START, submit) == Arrives(x)
    ensures Next(START, submit).queue == [x] && Next(START, submit).disk == if submit.saved then [x] else []
  {
    StepTook(START, submit);
    assert [] + [x] == [x];
    PruneShort([x]);
  }

  lemma ClaimUnsaved(s: State, x: Item, claim: Event)
    requires claim.Approve? && !claim.saved && s.disk == [x] && s.queue == [x] && x.status.Pending? && x.id == claim.id && !claim.cooling
    requires claim.policy.can(claim.policy.roleOf(claim.key), "approve_actions") && x.requestedBy != claim.key
    requires claim.policy.actionKnown(x.payload.eventType)
    requires Permitted(claim.policy, x.requestedBy, x.role, x.payload.eventType, ControllerFor(claim.policy, x.payload))
    ensures !Survives(Next(s, claim), Claims)
  {
    assert Find([x], x.id) == Some(0);
    StepTook(s, claim);
    var t := Next(s, claim);
    ClaimedSnoc(s.executions, Started(s, claim).value);
    PendingMembers(t.disk, x);
    assert x in PendingOf(t.disk) && x.id in ClaimedIds(t.executions);
  }
}
