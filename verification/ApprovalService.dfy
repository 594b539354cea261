/** The approval queue as it runs: a list of mutable entries that handlers hold on to between their
    sections under the lock, so that an entry may be changed after it was pruned from the list. Each method
    is one such section and is proved to do what the protocol's step says. */
module ApprovalService {
  import opened Json
  import Sequences
  import Q = ApprovalQueue

  class Entry {
    const id: string
    const payload: Q.Payload
    const requestedBy: string
    const role: string
    const controller: string
    var status: Q.Status
    var result: Option<Q.Result>
    var approvedBy: Option<string>
    var approverRole: Option<string>

    constructor (x: Q.Item)
      ensures Value() == x && id == x.id
    {
      id, payload, requestedBy, role, controller := x.id, x.payload, x.requestedBy, x.role, x.controller;
      status, result, approvedBy, approverRole := x.status, x.result, x.approvedBy, x.approverRole;
    }

    function Value(): (x: Q.Item)
      reads this
      ensures x.id == id
    {
      Q.Item(id, payload, requestedBy, role, controller, status, result, approvedBy, approverRole)
    }
  }

  function Values(q: seq<Entry>): (r: seq<Q.Item>)
    reads q
    ensures |r| == |q| && forall i :: 0 <= i < |q| ==> r[i] == q[i].Value()
  {
    seq(|q|, i requires 0 <= i < |q| reads q => q[i].Value())
  }

  lemma FindAt(q: seq<Q.Item>, i: nat)
    requires i < |q| && Q.DistinctIds(q)
    ensures Q.Find(q, q[i].id) == Some(i)
  {
  }

  function Rest(excess: nat, passed: nat): nat {
    if passed < excess then excess - passed else 0
  }

  /** The positions of the processed entries among the first i, ascending, and how many follow. */
  ghost predicate PositionsOf(processed: seq<nat>, q: seq<Q.Item>, i: nat) {
    && i <= |q|
    && (forall k :: 0 <= k < |processed| ==> processed[k] < i && !q[processed[k]].status.Pending?)
    && (forall j, k :: 0 <= j < k < |processed| ==> processed[j] < processed[k])
    && (forall k :: 0 <= k < i && !q[k].status.Pending? ==> k in processed)
    && |processed| + |Q.ProcessedOf(q[i..])| == |Q.ProcessedOf(q)|
  }

  lemma ProcessedFrom(q: seq<Q.Item>, i: nat)
    requires i < |q|
    ensures |Q.ProcessedOf(q[i..])| == (if q[i].status.Pending? then 0 else 1) + |Q.ProcessedOf(q[i + 1..])|
  {
    assert q[i..][1..] == q[i + 1..];
  }

  lemma PositionsStep(processed: seq<nat>, q: seq<Q.Item>, i: nat)
    requires PositionsOf(processed, q, i) && i < |q|
    ensures PositionsOf(if q[i].status.Pending? then processed else processed + [i], q, i + 1)
  {
    ProcessedFrom(q, i);
    if !q[i].status.Pending? {
      forall k | 0 <= k < i + 1 && !q[k].status.Pending?
        ensures k in processed + [i]
      {
        assert k < i ==> k in processed;
      }
    }
  }

  lemma PositionsEnd(processed: seq<nat>, q: seq<Q.Item>)
    requires PositionsOf(processed, q, |q|)
    ensures |processed| == |Q.ProcessedOf(q)|
  {
    assert q[|q|..] == [];
  }

  lemma DropStep(q: seq<Q.Item>, i: nat, rest: nat)
    requires i < |q|
    ensures Q.DropProcessed(q[i..], rest) ==
      if !q[i].status.Pending? && rest > 0 then Q.DropProcessed(q[i + 1..], rest - 1)
      else [q[i]] + Q.DropProcessed(q[i + 1..], rest)
  {
  }

  lemma PickedSnoc<T>(kept: seq<T>, at: seq<nat>, q: seq<T>, n: nat)
    requires Q.Picked(kept, at, q, n) && n < |q|
    ensures Q.Picked(kept + [q[n]], at + [n], q, n + 1) && Q.Picked(kept, at, q, n + 1)
  {
  }

  lemma {:induction false} PickedDistinct<T>(kept: seq<T>, at: seq<nat>, q: seq<T>)
    requires Q.Picked(kept, at, q, |q|)
    requires forall i, j :: 0 <= i < j < |q| ==> q[i] != q[j]
    ensures forall i, j :: 0 <= i < j < |kept| ==> kept[i] != kept[j]
  {
  }

  lemma {:induction false} PickedKnown<T>(kept: seq<T>, at: seq<nat>, q: seq<T>, known: set<T>)
    requires Q.Picked(kept, at, q, |q|)
    requires forall i :: 0 <= i < |q| ==> q[i] in known
    ensures forall i :: 0 <= i < |kept| ==> kept[i] in known
  {
  }

  lemma PickedValues(kept: seq<Entry>, at: seq<nat>, q: seq<Entry>, keptValues: seq<Q.Item>)
    requires Q.Picked(kept, at, q, |q|) && Q.Picked(keptValues, at, Values(q), |q|)
    ensures Values(kept) == keptValues
  {
  }

  /** The first `passed` positions are below i, the others are not. */
  ghost predicate PassedAt(processed: seq<nat>, passed: nat, i: nat) {
    && passed <= |processed|
    && (forall k :: 0 <= k < passed ==> processed[k] < i)
    && (forall k :: passed <= k < |processed| ==> processed[k] >= i)
  }

  lemma {:induction false} NextPosition(processed: seq<nat>, passed: nat, i: nat, n: nat)
    requires n <= |processed| && PassedAt(processed, passed, i)
    requires forall j, k :: 0 <= j < k < |processed| ==> processed[j] < processed[k]
    ensures i in processed[..n] <==> i in processed && passed < n
    ensures PassedAt(processed, if i in processed then passed + 1 else passed, i + 1)
  {
    if i in processed {
      var k :| 0 <= k < |processed| && processed[k] == i;
      assert k >= passed;
      assert processed[passed] >= processed[k];
      assert passed < n ==> processed[..n][passed] == i;
    }
  }

  /** The list comprehension of the pruning: everything but the first `excess` processed positions.
      `values` are the entries' values. */
  method KeepRest<T>(q: seq<T>, processed: seq<nat>, excess: nat, ghost values: seq<Q.Item>)
      returns (kept: seq<T>, ghost at: seq<nat>, ghost keptValues: seq<Q.Item>)
    requires |values| == |q| && excess <= |processed| && PositionsOf(processed, values, |values|)
    ensures Q.Picked(kept, at, q, |q|) && Q.Picked(keptValues, at, values, |q|)
    ensures keptValues == Q.DropProcessed(values, excess)
  {
    var drop := processed[..excess];
    kept, at, keptValues := [], [], [];
    ghost var passed: nat := 0;
    for i := 0 to |q|
      invariant PassedAt(processed, passed, i)
      invariant keptValues + Q.DropProcessed(values[i..], Rest(excess, passed)) == Q.DropProcessed(values, excess)
      invariant Q.Picked(kept, at, q, i) && Q.Picked(keptValues, at, values, i)
    {
      NextPosition(processed, passed, i, excess);
      DropStep(values, i, Rest(excess, passed));
      if i !in drop {
        Sequences.Regroup(keptValues, [values[i]], Q.DropProcessed(values[i + 1..], Rest(excess, passed)));
        PickedSnoc(kept, at, q, i);
        PickedSnoc(keptValues, at, values, i);
        kept, at, keptValues := kept + [q[i]], at + [i], keptValues + [values[i]];
      }
      if i in processed {
        passed := passed + 1;
      }
    }
    assert values[|q|..] == [];
    assert keptValues + [] == keptValues;
  }

  class ApprovalService {
    var queue: seq<Entry>
    var disk: seq<Q.Item>
    /** Every entry this process ever had in its queue; a handler may still hold any of them. */
    ghost var known: set<Entry>

    ghost predicate Valid()
      reads this, known
    {
      && (forall i :: 0 <= i < |queue| ==> queue[i] in known)
      && (forall e, f :: e in known && f in known && e.id == f.id ==> e == f)
      && (forall i, j :: 0 <= i < j < |queue| ==> queue[i] != queue[j])
    }

    ghost function Contents(): seq<Q.Item>
      reads this, queue
    {
      Values(queue)
    }

    /** A new process: _load_approval_queue with what is on disk. */
    constructor (disk: seq<Q.Item>)
      requires Q.DistinctIds(disk)
      ensures Valid() && fresh(known)
      ensures Contents() == disk && this.disk == disk
    {
      this.disk := disk;
      queue := [];
      known := {};
      new;
      for i := 0 to |disk|
        invariant this.disk == disk
        invariant Valid() && fresh(known)
        invariant |queue| == i && forall k :: 0 <= k < i ==> queue[k].Value() == disk[k]
        invariant known == set e | e in queue
      {
        var e := new Entry(disk[i]);
        queue := queue + [e];
        known := known + {e};
      }
      assert Values(queue) == disk;
    }

    lemma IdsDistinct()
      requires Valid()
      ensures Q.DistinctIds(Contents())
    {
    }

    /** The positions of the processed entries, in order. */
    method ProcessedPositions() returns (processed: seq<nat>)
      ensures PositionsOf(processed, Contents(), |queue|) && |processed| == |Q.ProcessedOf(Contents())|
    {
      ghost var q := Contents();
      processed := [];
      assert q[0..] == q;
      for i := 0 to |queue|
        invariant PositionsOf(processed, q, i)
      {
        PositionsStep(processed, q, i);
        if !queue[i].status.Pending? {
          processed := processed + [i];
        }
      }
      PositionsEnd(processed, q);
    }

    /** The slice assignment. */
    method KeepOnly(kept: seq<Entry>, ghost at: seq<nat>, ghost keptValues: seq<Q.Item>)
      requires Valid()
      requires Q.Picked(kept, at, queue, |queue|) && Q.Picked(keptValues, at, Contents(), |queue|)
      modifies this`queue
      ensures Valid() && Contents() == keptValues
    {
      PickedValues(kept, at, queue, keptValues);
      PickedDistinct(kept, at, queue);
      PickedKnown(kept, at, queue, known);
      queue := kept;
    }

    /** _prune_approval_queue_locked. */
    method Prune()
      requires Valid()
      modifies this`queue
      ensures Valid()
      ensures Contents() == Q.Prune(old(Contents()))
    {
      ghost var q := Contents();
      var processed := ProcessedPositions();
      var excess := |processed| - Q.MAX_PROCESSED;
      if excess > 0 {
        var kept, at, keptValues := KeepRest(queue, processed, excess, q);
        KeepOnly(kept, at, keptValues);
      } else {
        Q.DropNone(q);
      }
    }

    /** _save_approval_queue_locked. */
    method Save(works: bool)
      requires Valid()
      modifies this`queue, this`disk
      ensures Valid()
      ensures Contents() == Q.Prune(old(Contents()))
      ensures disk == if works then Contents() else old(disk)
    {
      Prune();
      if works {
        disk := Values(queue);
      }
    }

    /** _find_approval_entry_locked. */
    method FindEntry(id: string) returns (entry: Entry?)
      requires Valid()
      ensures entry == null <==> Q.Find(Contents(), id).None?
      ensures entry != null ==> entry.id == id && entry in queue && queue[Q.Find(Contents(), id).value] == entry
    {
      IdsDistinct();
      for i := 0 to |queue|
        invariant forall k :: 0 <= k < i ==> queue[k].id != id
      {
        if queue[i].id == id {
          FindAt(Contents(), i);
          return queue[i];
        }
      }
      return null;
    }

    /** approval_queue.append. */
    method Add(entry: Entry)
      requires Valid() && forall e :: e in known ==> e.id != entry.id
      modifies this`queue, this`known
      ensures Valid() && known == old(known) + {entry}
      ensures Contents() == old(Contents()) + [entry.Value()]
    {
      assert entry !in queue;
      queue := queue + [entry];
      known := known + {entry};
      assert queue[..|queue| - 1] == old(queue);
    }

    /** The webhook's section. */
    method Enqueue(x: Q.Item, saved: bool) returns (entry: Entry)
      requires Valid() && x.status.Pending?
      requires forall e :: e in known ==> e.id != x.id
      modifies this
      ensures Valid() && known == old(known) + {entry} && fresh(entry)
      ensures Contents() == Q.Prune(old(Contents()) + [x])
      ensures disk == if saved then Contents() else old(disk)
    {
      entry := new Entry(x);
      Add(entry);
      Save(saved);
    }

    /** Overwrites the fields of an entry, whether or not it is still in the queue. */
    method SetFields(entry: Entry, status: Q.Status, result: Option<Q.Result>, approvedBy: Option<string>, approverRole: Option<string>)
      requires Valid() && entry in known
      modifies entry
      ensures Valid()
      ensures entry.Value() == old(entry.Value()).(status := status, result := result, approvedBy := approvedBy, approverRole := approverRole)
      ensures Contents() == match Q.Find(old(Contents()), entry.id)
        case None => old(Contents())
        case Some(i) => old(Contents())[i := entry.Value()]
    {
      ghost var q := Contents();
      IdsDistinct();
      entry.status, entry.result, entry.approvedBy, entry.approverRole := status, result, approvedBy, approverRole;
      assert forall k :: 0 <= k < |queue| && queue[k] != entry ==> queue[k].Value() == q[k];
      ghost var found := Q.Find(q, entry.id);
      if found.Some? {
        assert queue[found.value] == entry;
        assert Contents() == q[found.value := entry.Value()];
      } else {
        assert forall k :: 0 <= k < |queue| ==> q[k] in q && queue[k] != entry;
        assert Contents() == q;
      }
    }

    /** The same, followed by a save. */
    method Update(entry: Entry, status: Q.Status, result: Option<Q.Result>, approvedBy: Option<string>, approverRole: Option<string>, saved: bool)
      requires Valid() && entry in known
      modifies this`queue, this`disk, entry
      ensures Valid()
      ensures entry.Value() == old(entry.Value()).(status := status, result := result, approvedBy := approvedBy, approverRole := approverRole)
      ensures Contents() == Q.Prune(match Q.Find(old(Contents()), entry.id)
                                    case None => old(Contents())
                                    case Some(i) => old(Contents())[i := entry.Value()])
      ensures disk == if saved then Contents() else old(disk)
    {
      SetFields(entry, status, result, approvedBy, approverRole);
      Save(saved);
    }

    /** The first section of approve: the claim. The caller keeps the entry, in the queue or not. */
    method Claim(id: string, key: string, pol: Q.Policy, cooling: bool, saved: bool) returns (d: Q.Decision, entry: Entry?)
      requires Valid()
      modifies this`queue, this`disk, known
      ensures Valid()
      ensures d == Q.DecideApprove(old(Contents()), id, key, pol, cooling)
      ensures Contents() == if Q.ApproveSaves(d) then Q.Prune(Q.AfterApprove(old(Contents()), id, key, pol, cooling)) else old(Contents())
      ensures disk == if Q.ApproveSaves(d) && saved then Contents() else old(disk)
      ensures d.Granted? ==> entry != null && entry in known && entry.id == id && entry.status.Approved?
    {
      entry := null;
      var role := pol.roleOf(key);
      if !pol.can(role, "approve_actions") {
        return Q.NotAnApprover, entry;
      }
      var found := FindEntry(id);
      if found == null {
        return Q.NotFound, entry;
      }
      assert Contents()[Q.Find(Contents(), id).value] == found.Value();
      if !found.status.Pending? {
        return Q.AlreadyProcessed, entry;
      }
      if found.requestedBy == key {
        return Q.OwnRequest, entry;
      }
      var eventType := found.payload.eventType;
      if found.payload.controllerOverride == "" && !pol.actionKnown(eventType) {
        return Q.Raises, entry;
      }
      var controller := Q.ControllerFor(pol, found.payload);
      if !pol.can(found.role, "execute_actions") || !pol.actionAllowed(found.requestedBy, eventType)
         || !pol.controllerAllowed(found.requestedBy, controller) {
        Update(found, Q.Rejected, Some(Q.NoLongerPermitted), found.approvedBy, found.approverRole, saved);
        return Q.Revoked, entry;
      }
      if !pol.actionKnown(eventType) {
        return Q.Raises, entry;
      }
      if cooling {
        return Q.Cooling, entry;
      }
      Update(found, Q.Approved, found.result, Some(key), Some(role), saved);
      return Q.Granted(controller), found;
    }

    /** The last section of approve, with the entry held since the claim. */
    method Finish(entry: Entry, outcome: Option<bool>, saved: bool)
      requires Valid() && entry in known
      modifies this`queue, this`disk, entry
      ensures Valid()
      ensures Contents() == Q.Prune(Q.AfterFinish(old(Contents()), entry.id, outcome))
      ensures entry.Value() == Q.Recorded(old(entry.Value()), outcome)
      ensures disk == if saved then Contents() else old(disk)
    {
      ghost var q := Contents();
      ghost var found := Q.Find(q, entry.id);
      if found.Some? {
        assert queue[found.value] in known;
        assert q[found.value] == entry.Value();
      }
      if outcome.None? {
        Update(entry, Q.Rejected, Some(Q.NothingExecutable), entry.approvedBy, entry.approverRole, saved);
      } else {
        Update(entry, entry.status, Some(Q.Executed(outcome.value)), entry.approvedBy, entry.approverRole, saved);
      }
    }

    /** The section of reject. */
    method Reject(id: string, key: string, pol: Q.Policy, saved: bool) returns (d: Q.Decision)
      requires Valid()
      modifies this`queue, this`disk, known
      ensures Valid()
      ensures d == Q.DecideReject(old(Contents()), id, key, pol)
      ensures Contents() == if d.Granted? then Q.Prune(Q.AfterReject(old(Contents()), id, key, pol)) else old(Contents())
      ensures disk == if d.Granted? && saved then Contents() else old(disk)
    {
      var role := pol.roleOf(key);
      if !pol.can(role, "approve_actions") {
        return Q.NotAnApprover;
      }
      var found := FindEntry(id);
      if found == null {
        return Q.NotFound;
      }
      if !found.status.Pending? {
        return Q.AlreadyProcessed;
      }
      if found.requestedBy == key {
        return Q.OwnRequest;
      }
      Update(found, Q.Rejected, Some(Q.RejectedByApprover), Some(key), Some(role), saved);
      return Q.Granted(Some(found.controller));
    }
  }
}
