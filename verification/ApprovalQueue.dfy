/** The approval queue as values: entries, pruning, and what each request handler decides. */
module ApprovalQueue {
  import opened Json

  datatype Status = Pending | Approved | Rejected

  datatype Result = RejectedByApprover | NoLongerPermitted | NothingExecutable | Executed(success: bool)

  datatype Payload = Payload(eventType: string, controllerOverride: string, parameters: Entry, dryRun: bool)

  datatype Item = Item(
    id: string, payload: Payload, requestedBy: string, role: string, controller: string,
    status: Status, result: Option<Result>, approvedBy: Option<string>, approverRole: Option<string>)

  const MAX_PROCESSED := 500

  // ----- pruning -----

  function PendingOf(q: seq<Item>): seq<Item> {
    if q == [] then [] else (if q[0].status.Pending? then [q[0]] else []) + PendingOf(q[1..])
  }

  function ProcessedOf(q: seq<Item>): seq<Item> {
    if q == [] then [] else (if q[0].status.Pending? then [] else [q[0]]) + ProcessedOf(q[1..])
  }

  /** q without its first `excess` processed entries. */
  function DropProcessed(q: seq<Item>, excess: nat): (r: seq<Item>)
    ensures forall x :: x in r ==> x in q
  {
    if q == [] then []
    else if !q[0].status.Pending? && excess > 0 then DropProcessed(q[1..], excess - 1)
    else [q[0]] + DropProcessed(q[1..], excess)
  }

  function Excess(q: seq<Item>): nat {
    var n := |ProcessedOf(q)|;
    if n > MAX_PROCESSED then n - MAX_PROCESSED else 0
  }

  /** _prune_approval_queue_locked. */
  function Prune(q: seq<Item>): (r: seq<Item>)
    ensures forall x :: x in r ==> x in q
  {
    DropProcessed(q, Excess(q))
  }

  /** Dropping by position keeps every pending entry in order and exactly the later processed ones. */
  lemma {:induction false} DropProcessedKeeps(q: seq<Item>, excess: nat)
    requires excess <= |ProcessedOf(q)|
    ensures PendingOf(DropProcessed(q, excess)) == PendingOf(q)
    ensures ProcessedOf(DropProcessed(q, excess)) == ProcessedOf(q)[excess..]
    decreases |q|
  {
    if q != [] {
      if !q[0].status.Pending? && excess > 0 {
        DropProcessedKeeps(q[1..], excess - 1);
        assert ProcessedOf(q)[excess..] == ProcessedOf(q[1..])[excess - 1..];
        assert PendingOf(q) == PendingOf(q[1..]);
      } else {
        DropProcessedKeeps(q[1..], excess);
        var r := [q[0]] + DropProcessed(q[1..], excess);
        assert r[1..] == DropProcessed(q[1..], excess);
      }
    }
  }

  /** Pruning keeps all pending entries, in order, and the last (at most 500) processed ones, in order. */
  lemma {:induction false} PruneKeeps(q: seq<Item>)
    ensures PendingOf(Prune(q)) == PendingOf(q)
    ensures var all := ProcessedOf(q);
      ProcessedOf(Prune(q)) == if |all| <= 500 then all else all[|all| - 500..]
  {
    DropProcessedKeeps(q, Excess(q));
  }

  lemma {:induction false} DropNone(q: seq<Item>)
    ensures DropProcessed(q, 0) == q && |ProcessedOf(q)| <= |q|
    decreases |q|
  {
    if q != [] {
      DropNone(q[1..]);
    }
  }

  lemma PruneShort(q: seq<Item>)
    requires |q| <= MAX_PROCESSED
    ensures Prune(q) == q
  {
    DropNone(q);
  }

  /** `kept` are the elements of q at the ascending positions `at`, all below n. */
  ghost predicate Picked<T>(kept: seq<T>, at: seq<nat>, q: seq<T>, n: nat) {
    && |at| == |kept|
    && (forall k :: 0 <= k < |at| ==> at[k] < n && at[k] < |q| && kept[k] == q[at[k]])
    && (forall j, k :: 0 <= j < k < |at| ==> at[j] < at[k])
  }

  function Shifted(at: seq<nat>): (r: seq<nat>)
    ensures |r| == |at| && forall k :: 0 <= k < |at| ==> r[k] == at[k] + 1
  {
    seq(|at|, k requires 0 <= k < |at| => at[k] + 1)
  }

  lemma PickedFromTail<T>(q: seq<T>, kept: seq<T>, at: seq<nat>)
    requires q != [] && Picked(kept, at, q[1..], |q| - 1)
    ensures Picked(kept, Shifted(at), q, |q|)
    ensures Picked([q[0]] + kept, [0] + Shifted(at), q, |q|)
  {
  }

  /** What is kept stays in the order of the queue. */
  lemma {:induction false} DropProcessedInOrder(q: seq<Item>, excess: nat) returns (at: seq<nat>)
    ensures Picked(DropProcessed(q, excess), at, q, |q|)
    decreases |q|
  {
    if q == [] {
      at := [];
    } else {
      var drop := !q[0].status.Pending? && excess > 0;
      var rest := DropProcessedInOrder(q[1..], if drop then excess - 1 else excess);
      PickedFromTail(q, DropProcessed(q[1..], if drop then excess - 1 else excess), rest);
      at := if drop then Shifted(rest) else [0] + Shifted(rest);
    }
  }

  ghost predicate DistinctIds(q: seq<Item>) {
    forall i, j :: 0 <= i < j < |q| ==> q[i].id != q[j].id
  }

  lemma PruneKeepsDistinct(q: seq<Item>)
    requires DistinctIds(q)
    ensures DistinctIds(Prune(q))
  {
    var at := DropProcessedInOrder(q, Excess(q));
    forall i, j | 0 <= i < j < |Prune(q)|
      ensures Prune(q)[i].id != Prune(q)[j].id
    {
      assert at[i] < at[j];
    }
  }

  lemma {:induction false} PendingMembers(q: seq<Item>, x: Item)
    ensures x in PendingOf(q) <==> x in q && x.status.Pending?
    decreases |q|
  {
    if q != [] {
      PendingMembers(q[1..], x);
      assert q == [q[0]] + q[1..];
    }
  }

  lemma PendingCons(x: Item, q: seq<Item>)
    ensures PendingOf([x] + q) == if x.status.Pending? then [x] + PendingOf(q) else PendingOf(q)
  {
    assert ([x] + q)[1..] == q;
  }

  lemma {:induction false} PendingSnoc(q: seq<Item>, x: Item)
    requires x.status.Pending?
    ensures PendingOf(q + [x]) == PendingOf(q) + [x]
    decreases |q|
  {
    if q == [] {
      assert q + [x] == [x] + [];
      PendingCons(x, []);
    } else {
      assert q + [x] == [q[0]] + (q[1..] + [x]);
      PendingSnoc(q[1..], x);
      PendingCons(q[0], q[1..] + [x]);
    }
  }

  /** The entries with another id. */
  function Others(q: seq<Item>, id: string): seq<Item> {
    if q == [] then [] else (if q[0].id == id then [] else [q[0]]) + Others(q[1..], id)
  }

  lemma {:induction false} OthersMembers(q: seq<Item>, id: string)
    ensures forall x :: x in Others(q, id) <==> x in q && x.id != id
    decreases |q|
  {
    if q != [] {
      OthersMembers(q[1..], id);
      assert q == [q[0]] + q[1..];
    }
  }

  lemma OthersCons(x: Item, q: seq<Item>, id: string)
    ensures Others([x] + q, id) == if x.id == id then Others(q, id) else [x] + Others(q, id)
  {
    assert ([x] + q)[1..] == q;
  }

  lemma {:induction false} OthersAll(q: seq<Item>, id: string)
    requires forall x :: x in q ==> x.id != id
    ensures Others(q, id) == q
    decreases |q|
  {
    if q != [] {
      OthersAll(q[1..], id);
    }
  }

  lemma SetCons(q: seq<Item>, i: nat, y: Item)
    requires i < |q|
    ensures q == [q[0]] + q[1..]
    ensures q[i := y] == if i == 0 then [y] + q[1..] else [q[0]] + q[1..][i - 1 := y]
  {
  }

  /** Processing one pending entry takes exactly it out of the pending ones. */
  lemma {:induction false} PendingProcessed(q: seq<Item>, i: nat, y: Item)
    requires DistinctIds(q) && i < |q| && q[i].status.Pending? && !y.status.Pending?
    ensures PendingOf(q[i := y]) == Others(PendingOf(q), q[i].id)
    decreases |q|
  {
    SetCons(q, i, y);
    if i == 0 {
      RestHasOtherIds(q);
      FirstProcessed(q[0], q[1..], y);
    } else {
      assert q[1..][i - 1] == q[i] && q[0].id != q[i].id;
      PendingProcessed(q[1..], i - 1, y);
      LaterProcessed(q[0], q[1..], q[1..][i - 1 := y], q[i].id);
    }
  }

  lemma {:induction false} FirstProcessed(x: Item, rest: seq<Item>, y: Item)
    requires x.status.Pending? && !y.status.Pending? && forall z :: z in PendingOf(rest) ==> z.id != x.id
    ensures PendingOf([y] + rest) == Others(PendingOf([x] + rest), x.id)
  {
    PendingCons(x, rest);
    PendingCons(y, rest);
    OthersCons(x, PendingOf(rest), x.id);
    OthersAll(PendingOf(rest), x.id);
  }

  lemma LaterProcessed(x: Item, rest: seq<Item>, after: seq<Item>, id: string)
    requires PendingOf(after) == Others(PendingOf(rest), id) && x.id != id
    ensures PendingOf([x] + after) == Others(PendingOf([x] + rest), id)
  {
    PendingCons(x, rest);
    PendingCons(x, after);
    OthersCons(x, PendingOf(rest), id);
  }

  lemma RestHasOtherIds(q: seq<Item>)
    requires DistinctIds(q) && q != []
    ensures forall x :: x in PendingOf(q[1..]) ==> x.id != q[0].id
  {
    forall x | x in PendingOf(q[1..])
      ensures x.id != q[0].id
    {
      PendingMembers(q[1..], x);
    }
  }

  /** Changing a processed entry changes no pending one. */
  lemma {:induction false} PendingKept(q: seq<Item>, i: nat, y: Item)
    requires i < |q| && !q[i].status.Pending? && !y.status.Pending?
    ensures PendingOf(q[i := y]) == PendingOf(q)
    decreases |q|
  {
    var x, rest := q[0], q[1..];
    SetCons(q, i, y);
    PendingCons(x, rest);
    if i == 0 {
      PendingCons(y, rest);
    } else {
      PendingCons(x, rest[i - 1 := y]);
      PendingKept(rest, i - 1, y);
    }
  }

  // ----- what the handlers decide -----

  /** _find_approval_entry_locked: the position of the first entry with that id. */
  function Find(q: seq<Item>, id: string): (i: Option<nat>)
    ensures i.Some? ==> i.value < |q| && q[i.value].id == id
    ensures i.None? ==> forall x :: x in q ==> x.id != id
  {
    if q == [] then None
    else if q[0].id == id then Some(0)
    else match Find(q[1..], id)
      case None => None
      case Some(i) => Some(i + 1)
  }

  /** Roles, scopes and configuration as they stand when a request is handled; they may change between
      requests. An action may be configured without a default controller. */
  datatype Policy = Policy(
    roleOf: string -> string,
    can: (string, string) -> bool,
    actionAllowed: (string, string) -> bool,
    controllerAllowed: (string, Option<string>) -> bool,
    actionKnown: string -> bool,
    defaultController: string -> Option<string>,
    controllerKnown: string -> bool)

  function ControllerFor(pol: Policy, payload: Payload): Option<string> {
    if payload.controllerOverride != "" then Some(payload.controllerOverride)
    else pol.defaultController(payload.eventType)
  }

  /** The requester may still trigger this action on this controller. */
  predicate Permitted(pol: Policy, key: string, role: string, eventType: string, controller: Option<string>) {
    pol.can(role, "execute_actions") && pol.actionAllowed(key, eventType) && pol.controllerAllowed(key, controller)
  }

  datatype Decision =
    | NotAnApprover | NotFound | AlreadyProcessed | OwnRequest
    | Raises                 // the action is not configured any more
    | Revoked                // the requester is no longer permitted
    | Cooling | Granted(controller: Option<string>)

  /** The first half of an approve request, up to the claim. */
  function DecideApprove(q: seq<Item>, id: string, key: string, pol: Policy, cooling: bool): Decision {
    if !pol.can(pol.roleOf(key), "approve_actions") then NotAnApprover
    else match Find(q, id)
      case None => NotFound
      case Some(i) =>
        var x := q[i];
        var controller := ControllerFor(pol, x.payload);
        if !x.status.Pending? then AlreadyProcessed
        else if x.requestedBy == key then OwnRequest
        else if x.payload.controllerOverride == "" && !pol.actionKnown(x.payload.eventType) then Raises
        else if !Permitted(pol, x.requestedBy, x.role, x.payload.eventType, controller) then Revoked
        else if !pol.actionKnown(x.payload.eventType) then Raises
        else if cooling then Cooling
        else Granted(controller)
  }

  /** A reject request; Granted means it is rejected. */
  function DecideReject(q: seq<Item>, id: string, key: string, pol: Policy): Decision {
    if !pol.can(pol.roleOf(key), "approve_actions") then NotAnApprover
    else match Find(q, id)
      case None => NotFound
      case Some(i) =>
        if !q[i].status.Pending? then AlreadyProcessed
        else if q[i].requestedBy == key then OwnRequest
        else Granted(Some(q[i].controller))
  }

  function Claimed(x: Item, key: string, role: string): Item {
    x.(status := Approved, approvedBy := Some(key), approverRole := Some(role))
  }

  function RevokedItem(x: Item): Item {
    x.(status := Rejected, result := Some(NoLongerPermitted))
  }

  function RejectedItem(x: Item, key: string, role: string): Item {
    x.(status := Rejected, result := Some(RejectedByApprover), approvedBy := Some(key), approverRole := Some(role))
  }

  /** The outcome of an execution as it is recorded: None when the action defined nothing to run. */
  function Recorded(x: Item, outcome: Option<bool>): Item {
    match outcome
    case None => x.(status := Rejected, result := Some(NothingExecutable))
    case Some(ok) => x.(result := Some(Executed(ok)))
  }

  /** The queue in memory after an approve request, before it is saved. */
  function AfterApprove(q: seq<Item>, id: string, key: string, pol: Policy, cooling: bool): seq<Item> {
    var d := DecideApprove(q, id, key, pol, cooling);
    if d.Granted? then var i := Find(q, id).value; q[i := Claimed(q[i], key, pol.roleOf(key))]
    else if d.Revoked? then var i := Find(q, id).value; q[i := RevokedItem(q[i])]
    else q
  }

  predicate ApproveSaves(d: Decision) {
    d.Granted? || d.Revoked?
  }

  function AfterReject(q: seq<Item>, id: string, key: string, pol: Policy): seq<Item> {
    if DecideReject(q, id, key, pol).Granted?
    then var i := Find(q, id).value; q[i := RejectedItem(q[i], key, pol.roleOf(key))]
    else q
  }

  function AfterFinish(q: seq<Item>, id: string, outcome: Option<bool>): seq<Item> {
    match Find(q, id)
    case None => q
    case Some(i) => q[i := Recorded(q[i], outcome)]
  }

  /** What the limiter and the cooldown say about a webhook call, and whether it asks for approval. */
  datatype Gates = Gates(callerLimited: bool, actionLimited: bool, cooling: bool, approvalRequired: bool)

  datatype WebhookDecision = Refused | Enqueue(controller: string) | Execute(controller: string)

  function DecideWebhook(pol: Policy, key: string, payload: Payload, g: Gates): WebhookDecision {
    var role := pol.roleOf(key);
    if g.callerLimited then Refused
    else if !pol.actionKnown(payload.eventType) then Refused
    else if g.actionLimited then Refused
    else if !pol.can(role, "execute_actions") || !pol.actionAllowed(key, payload.eventType) then Refused
    else if payload.controllerOverride != "" && !pol.can(role, "controller_override") then Refused
    else
      match ControllerFor(pol, payload)
      case None => Refused
      case Some(controller) =>
        if !pol.controllerKnown(controller) || !pol.controllerAllowed(key, Some(controller)) then Refused
        else if g.approvalRequired then Enqueue(controller)
        else if g.cooling then Refused
        else Execute(controller)
  }

  function NewItem(pol: Policy, key: string, payload: Payload, id: string, controller: string): Item {
    Item(id, payload, key, pol.roleOf(key), controller, Pending, None, None, None)
  }
}
