/** The cooldown tracker: when each key last ran, pruned and saved on every record, and what it
    promises for executions that arrive directly or through an approval. */
module Cooldown {
  import opened Json

  /** MAX_COOLDOWN_RETENTION_SECONDS. */
  const RETENTION: real := 86400.0

  type Times = map<string, real>

  function Pruned(times: Times, cutoff: real): Times {
    map k | k in times && times[k] >= cutoff :: times[k]
  }

  function Remaining(times: Times, key: string, cooldown: real, now: real): Option<real> {
    if cooldown == 0.0 || key !in times then None
    else
      var remaining := cooldown - (now - times[key]);
      if remaining > 0.0 then Some(remaining) else None
  }

  // ----- keys -----

  /** What a key starts with: one head for each pair of action and controller. */
  function Head(event: string, controller: string): string {
    event + "|" + controller + "|"
  }

  function TextOr(dedup: Option<string>): string {
    if dedup.Some? then dedup.value else ""
  }

  /** CooldownTracker.make_key. */
  function MakeKey(event: string, controller: string, dedup: Option<string>): string {
    Head(event, controller) + TextOr(dedup)
  }

  /** The value of the configured parameter, if the call has one; "" stands for no configured parameter. */
  function DedupValue(dedupParam: string, params: Entry, textOf: Value -> string): Option<string> {
    if dedupParam != "" && dedupParam in params && params[dedupParam] != Null then Some(textOf(params[dedupParam])) else None
  }

  /** cooldown_key_for. */
  function KeyFor(dedupParam: string, event: string, controller: string, params: Entry, textOf: Value -> string): string {
    MakeKey(event, controller, DedupValue(dedupParam, params, textOf))
  }

  /** `text` continues the head of (e, c) to the head of (f, g) and then `rest`. */
  predicate Continues(e: string, c: string, text: string, f: string, g: string, rest: string) {
    Head(e, c) <= Head(f, g) && text == Head(f, g)[|Head(e, c)|..] + rest
  }

  lemma SameStart(x: string, d: string, y: string, h: string)
    requires x + d == y + h && |x| <= |y|
    ensures x <= y && d == y[|x|..] + h
  {
    var s := x + d;
    assert x == s[..|x|] && d == s[|x|..];
    assert s == y + h;
  }

  /** Two calls share a cooldown exactly if one head begins the other and the deduplication text of the
      shorter makes up for the difference. A missing value counts as the empty text. */
  lemma KeysAgreeIff(e: string, c: string, d: Option<string>, f: string, g: string, h: Option<string>)
    ensures MakeKey(e, c, d) == MakeKey(f, g, h) <==>
      Continues(e, c, TextOr(d), f, g, TextOr(h)) || Continues(f, g, TextOr(h), e, c, TextOr(d))
  {
    if MakeKey(e, c, d) == MakeKey(f, g, h) {
      if |Head(e, c)| <= |Head(f, g)| {
        SameStart(Head(e, c), TextOr(d), Head(f, g), TextOr(h));
      } else {
        SameStart(Head(f, g), TextOr(h), Head(e, c), TextOr(d));
      }
    }
    if Continues(e, c, TextOr(d), f, g, TextOr(h)) {
      ContinuedKey(e, c, d, f, g, h);
    }
    if Continues(f, g, TextOr(h), e, c, TextOr(d)) {
      ContinuedKey(f, g, h, e, c, d);
    }
  }

  lemma ContinuedKey(e: string, c: string, d: Option<string>, f: string, g: string, h: Option<string>)
    requires Continues(e, c, TextOr(d), f, g, TextOr(h))
    ensures MakeKey(e, c, d) == MakeKey(f, g, h)
  {
    var x, y := Head(e, c), Head(f, g);
    assert y == x + y[|x|..];
    assert x + y[|x|..] + TextOr(h) == x + (y[|x|..] + TextOr(h));
  }

  /** So two targets can get one key exactly if one of their heads begins the other - which can be read off
      the configured names. */
  lemma TargetsCanMeetIff(e: string, c: string, f: string, g: string)
    ensures (exists d, h :: MakeKey(e, c, Some(d)) == MakeKey(f, g, Some(h))) <==>
      Head(e, c) <= Head(f, g) || Head(f, g) <= Head(e, c)
  {
    var x, y := Head(e, c), Head(f, g);
    if x <= y {
      assert x + y[|x|..] == y + "";
      assert MakeKey(e, c, Some(y[|x|..])) == MakeKey(f, g, Some(""));
    } else if y <= x {
      assert y + x[|y|..] == x + "";
      assert MakeKey(e, c, Some("")) == MakeKey(f, g, Some(x[|y|..]));
    } else if exists d, h :: MakeKey(e, c, Some(d)) == MakeKey(f, g, Some(h)) {
      var d, h :| MakeKey(e, c, Some(d)) == MakeKey(f, g, Some(h));
      KeysAgreeIff(e, c, Some(d), f, g, Some(h));
    }
  }

  /** Names without the separator keep different targets apart. */
  lemma PlainNamesDoNotMeet(e: string, c: string, f: string, g: string)
    requires '|' !in e && '|' !in f && '|' !in c && '|' !in g
    requires Head(e, c) <= Head(f, g)
    ensures e == f && c == g
  {
    var tail := Head(f, g)[|Head(e, c)|..];
    assert Head(f, g) == Head(e, c) + tail;
    assert e + "|" + (c + "|" + tail) == Head(e, c) + tail;
    assert f + "|" + (g + "|") == Head(f, g);
    SplitAtBar(e, c + "|" + tail, f, g + "|");
    assert g + "|" + "" == g + "|";
    SplitAtBar(c, tail, g, "");
  }

  lemma SplitAtBar(a: string, x: string, b: string, y: string)
    requires a + "|" + x == b + "|" + y && '|' !in a && '|' !in b
    ensures a == b && x == y
  {
    var s, t := a + "|" + x, b + "|" + y;
    assert s[|a|] == '|' && t[|b|] == '|';
    assert forall i :: 0 <= i < |a| ==> s[i] == a[i] && s[i] != '|';
    assert forall i :: 0 <= i < |b| ==> t[i] == b[i] && t[i] != '|';
    assert |a| == |b|;
    assert a == s[..|a|] && b == t[..|b|];
    assert x == s[|a| + 1..] && y == t[|b| + 1..];
  }

  /** The action names a parameter, and the call has it. */
  predicate Has(params: Entry, dedupParam: string) {
    dedupParam != "" && dedupParam in params && params[dedupParam] != Null
  }

  /** A key is the action, the controller and the text of the parameter that the action names, in this order. */
  lemma KeyExactly(dedupParam: string, event: string, controller: string, params: Entry, textOf: Value -> string)
    ensures KeyFor(dedupParam, event, controller, params, textOf) ==
      event + "|" + controller + "|" + if Has(params, dedupParam) then textOf(params[dedupParam]) else ""
  {
  }

  /** Calls of one action on one controller share a cooldown exactly if they agree on the text of the parameter that
      the action names, where a missing one counts as the empty text; other parameters do not matter. */
  lemma OtherParametersDoNotMatter(dedupParam: string, event: string, controller: string, p: Entry, q: Entry, textOf: Value -> string)
    ensures var same := KeyFor(dedupParam, event, controller, p, textOf) == KeyFor(dedupParam, event, controller, q, textOf);
      && (Has(p, dedupParam) && Has(q, dedupParam) ==> (same <==> textOf(p[dedupParam]) == textOf(q[dedupParam])))
      && (Has(p, dedupParam) && !Has(q, dedupParam) ==> (same <==> textOf(p[dedupParam]) == ""))
      && (!Has(p, dedupParam) && Has(q, dedupParam) ==> (same <==> textOf(q[dedupParam]) == ""))
      && (!Has(p, dedupParam) && !Has(q, dedupParam) ==> same)
  {
    var u, v := TextOr(DedupValue(dedupParam, p, textOf)), TextOr(DedupValue(dedupParam, q, textOf));
    var head := Head(event, controller);
    assert (head + u)[|head|..] == u && (head + v)[|head|..] == v;
  }

  class CooldownTracker {
    var lastRun: Times
    var disk: Option<Times>

    /** A new process: whatever a prior run left on disk is loaded. */
    constructor (disk: Option<Times>)
      ensures this.disk == disk
      ensures lastRun == if disk.Some? then disk.value else map[]
    {
      this.disk := disk;
      lastRun := if disk.Some? then map[] + disk.value else map[];
    }

    /** _prune_locked. */
    method Prune(now: real)
      modifies this`lastRun
      ensures lastRun == Pruned(old(lastRun), now - RETENTION)
    {
      var cutoff := now - RETENTION;
      var staleKeys := set k | k in lastRun && lastRun[k] < cutoff;
      while staleKeys != {}
        invariant staleKeys == set k | k in lastRun && lastRun[k] < cutoff
        invariant Pruned(lastRun, cutoff) == Pruned(old(lastRun), cutoff)
        decreases |staleKeys|
      {
        var k :| k in staleKeys;
        lastRun := lastRun - {k};
        staleKeys := staleKeys - {k};
      }
      assert forall k | k in lastRun && lastRun[k] < cutoff :: k in staleKeys;
      assert Pruned(lastRun, cutoff) == lastRun;
    }

    /** record, whose save succeeds; the clock is read once for the record and once to prune. */
    method Record(key: string, now: real, pruneNow: real)
      modifies this
      ensures lastRun == Pruned(old(lastRun)[key := now], pruneNow - RETENTION)
      ensures disk == Some(lastRun)
    {
      lastRun := lastRun[key := now];
      Prune(pruneNow);
      disk := Some(lastRun);
    }

    method SecondsRemaining(key: string, cooldown: real, now: real) returns (r: Option<real>)
      ensures r == Remaining(lastRun, key, cooldown, now)
      ensures r.Some? <==> cooldown != 0.0 && key in lastRun && now < lastRun[key] + cooldown
      ensures r.Some? ==> now + r.value == lastRun[key] + cooldown
    {
      if cooldown == 0.0 {
        return None;
      }
      if key !in lastRun {
        return None;
      }
      var remaining := cooldown - (now - lastRun[key]);
      return if remaining > 0.0 then Some(remaining) else None;
    }
  }

  // ----- runs -----

  /** What handlers do, one after the other and possibly interleaved: ask, execute, and record afterwards.
      An execution whose handler dies with its process is never recorded. */
  datatype Event =
    | Attempt(key: string, cooldown: real, dryRun: bool, now: real) // seconds_remaining, and unless blocked the execution starts
    | Record(execution: nat, now: real, pruned: real)               // record, by the handler of that execution
    | Restart

  /** A real (not dry) execution: the clock at its check, and how many records had been made by then. */
  datatype Execution = Execution(key: string, cooldown: real, checked: real, seen: nat)

  datatype Note = Note(execution: nat, key: string, at: real)

  /** The tracker and its disk copy, beside every record ever made. Handlers of executions before number
      `since` died with their process. */
  datatype State = State(lastRun: Times, disk: Option<Times>, notes: seq<Note>, log: seq<Execution>, since: nat)

  const START := State(map[], None, [], [], 0)

  function Step(s: State, e: Event): State {
    match e
    case Attempt(key, cooldown, dryRun, now) =>
      if dryRun || Remaining(s.lastRun, key, cooldown, now).Some? then s
      else s.(log := s.log + [Execution(key, cooldown, now, |s.notes|)])
    case Record(i, now, pruned) =>
      if i < s.since || i >= |s.log| || s.log[i].cooldown == 0.0 then s
      else
        var lastRun := Pruned(s.lastRun[s.log[i].key := now], pruned - RETENTION);
        State(lastRun, Some(lastRun), s.notes + [Note(i, s.log[i].key, now)], s.log, s.since)
    case Restart => s.(lastRun := if s.disk.Some? then s.disk.value else map[], since := |s.log|)
  }

  function Run(events: seq<Event>): State {
    if events == [] then START else Step(Run(events[..|events| - 1]), events[|events| - 1])
  }

  /** The clock when the last record was made. */
  function Clock(events: seq<Event>): real {
    if events == [] then 0.0
    else match events[|events| - 1]
      case Record(_, _, pruned) => pruned
      case _ => Clock(events[..|events| - 1])
  }

  predicate Timely(s: State, clock: real, e: Event) {
    match e
    case Attempt(_, _, _, now) => clock <= now
    case Record(i, now, pruned) => clock <= now <= pruned && (i < |s.log| ==> s.log[i].checked <= now)
    case Restart => true
  }

  /** The clock does not go back: records are made in the order of the lock, a check reads the clock after
      the records it sees, a handler records after its check. Checks need no order among each other. */
  predicate InOrder(events: seq<Event>) {
    events == [] ||
    (var n := |events| - 1; InOrder(events[..n]) && Timely(Run(events[..n]), Clock(events[..n]), events[n]))
  }

  // ----- forgetting -----

  /** What a tracker that never forgets would hold. */
  function Full(notes: seq<Note>): Times {
    if notes == [] then map[]
    else
      var last := notes[|notes| - 1];
      Full(notes[..|notes| - 1])[last.key := last.at]
  }

  lemma FullSnoc(notes: seq<Note>, note: Note)
    ensures Full(notes + [note]) == Full(notes)[note.key := note.at]
  {
    assert (notes + [note])[..|notes|] == notes;
  }

  /** All the tracker has forgotten is older than its retention. */
  ghost predicate ForgotOnlyOld(s: State, clock: real) {
    var full := Full(s.notes);
    && (s.disk == Some(s.lastRun) || (s.disk == None && s.lastRun == map[]))
    && (forall k :: k in s.lastRun ==> k in full && full[k] == s.lastRun[k])
    && (forall k :: k in full && k !in s.lastRun ==> full[k] < clock - RETENTION)
  }

  function After(clock: real, e: Event): real {
    if e.Record? then e.pruned else clock
  }

  lemma ForgetStep(s: State, clock: real, e: Event)
    requires ForgotOnlyOld(s, clock) && Timely(s, clock, e)
    ensures ForgotOnlyOld(Step(s, e), After(clock, e))
  {
    if e.Record? && s.since <= e.execution < |s.log| {
      FullSnoc(s.notes, Note(e.execution, s.log[e.execution].key, e.now));
    }
  }

  lemma {:induction false} RunForgetsOnlyOld(events: seq<Event>)
    requires InOrder(events)
    ensures ForgotOnlyOld(Run(events), Clock(events))
  {
    if events != [] {
      var n := |events| - 1;
      RunForgetsOnlyOld(events[..n]);
      ForgetStep(Run(events[..n]), Clock(events[..n]), events[n]);
    }
  }

  /** Forgetting is invisible: after any run with restarts, the tracker answers every query with a
      cooldown of at most 24 hours as if it had kept every record. */
  lemma ForgettingIsInvisible(events: seq<Event>, key: string, cooldown: real, now: real)
    requires InOrder(events) && Clock(events) <= now && cooldown <= RETENTION
    ensures var s := Run(events); Remaining(s.lastRun, key, cooldown, now) == Remaining(Full(s.notes), key, cooldown, now)
  {
    RunForgetsOnlyOld(events);
  }

  ghost predicate Invisible(cooldown: real) {
    forall events, key, now :: InOrder(events) && Clock(events) <= now ==>
      Remaining(Run(events).lastRun, key, cooldown, now) == Remaining(Full(Run(events).notes), key, cooldown, now)
  }

  /** The retention is the exact bound: for a longer cooldown a run of two executions shows the loss. */
  lemma InvisibleIffWithinRetention(cooldown: real)
    ensures Invisible(cooldown) <==> cooldown <= 86_400.0
  {
    if cooldown <= RETENTION {
      forall events, key, now | InOrder(events) && Clock(events) <= now
        ensures Remaining(Run(events).lastRun, key, cooldown, now) == Remaining(Full(Run(events).notes), key, cooldown, now)
      {
        ForgettingIsInvisible(events, key, cooldown, now);
      }
    } else {
      var late := (RETENTION + cooldown) / 2.0;
      var events := ForgetfulRun(late);
      assert Remaining(Full(Run(events).notes), "a", cooldown, late).Some?;
      assert !Invisible(cooldown);
    }
  }

  lemma RunSnoc(events: seq<Event>, e: Event)
    ensures Run(events + [e]) == Step(Run(events), e)
    ensures Clock(events + [e]) == After(Clock(events), e)
    ensures InOrder(events + [e]) <==> InOrder(events) && Timely(Run(events), Clock(events), e)
  {
    assert (events + [e])[..|events|] == events;
  }

  lemma ForgetfulRun(late: real) returns (events: seq<Event>)
    requires late > RETENTION
    ensures InOrder(events) && Clock(events) == late
    ensures "a" !in Run(events).lastRun && "a" in Full(Run(events).notes) && Full(Run(events).notes)["a"] == 0.0
  {
    var e1, e2 := Attempt("a", 1.0, false, 0.0), Record(0, 0.0, 0.0);
    var e3, e4 := Attempt("b", 1.0, false, late), Record(1, late, late);
    RunSnoc([], e1);
    RunSnoc([] + [e1], e2);
    RunSnoc([] + [e1] + [e2], e3);
    RunSnoc([] + [e1] + [e2] + [e3], e4);
    events := [] + [e1] + [e2] + [e3] + [e4];
    var s := Run([] + [e1] + [e2]);
    assert s.notes == [Note(0, "a", 0.0)];
    FullSnoc([], Note(0, "a", 0.0));
    assert [] + [Note(0, "a", 0.0)] == [Note(0, "a", 0.0)];
    FullSnoc(s.notes, Note(1, "b", late));
  }

  // ----- spacing -----

  /** Some record of the key is less than `cooldown` old. */
  ghost predicate Recent(notes: seq<Note>, key: string, cooldown: real, now: real) {
    exists r :: 0 <= r < |notes| && notes[r].key == key && now - notes[r].at < cooldown
  }

  ghost predicate Ascending(notes: seq<Note>, clock: real) {
    forall q, r :: 0 <= q <= r < |notes| ==> notes[q].at <= notes[r].at <= clock
  }

  lemma {:induction false} FullIsLatest(notes: seq<Note>, clock: real, key: string)
    requires Ascending(notes, clock)
    ensures forall r :: 0 <= r < |notes| && notes[r].key == key ==> key in Full(notes) && notes[r].at <= Full(notes)[key]
    ensures key in Full(notes) ==> exists r :: 0 <= r < |notes| && notes[r].key == key && notes[r].at == Full(notes)[key]
  {
    if notes != [] {
      var n := |notes| - 1;
      FullIsLatest(notes[..n], clock, key);
      if key in Full(notes[..n]) && notes[n].key != key {
        var r :| 0 <= r < n && notes[..n][r].key == key && notes[..n][r].at == Full(notes[..n])[key];
        assert notes[r].key == key;
      }
    }
  }

  /** Each record is of an execution with its key, made after its check. */
  ghost predicate NotesOfLog(s: State) {
    forall r :: 0 <= r < |s.notes| ==>
      s.notes[r].execution < |s.log| && s.log[s.notes[r].execution].key == s.notes[r].key
      && s.log[s.notes[r].execution].checked <= s.notes[r].at
  }

  ghost predicate Spaced(s: State, j: nat)
    requires j < |s.log|
  {
    var x := s.log[j];
    && x.seen <= |s.notes|
    && (0.0 < x.cooldown <= RETENTION ==> forall r :: 0 <= r < x.seen && s.notes[r].key == x.key ==> x.checked - s.notes[r].at >= x.cooldown)
  }

  ghost predicate LogInv(s: State, clock: real) {
    Ascending(s.notes, clock) && NotesOfLog(s) && forall j :: 0 <= j < |s.log| ==> Spaced(s, j)
  }

  /** A query finds the key cooling exactly if some record of it is recent. */
  lemma RemainingIffRecent(s: State, clock: real, key: string, cooldown: real, now: real)
    requires ForgotOnlyOld(s, clock) && Ascending(s.notes, clock) && clock <= now && cooldown <= RETENTION
    ensures Remaining(s.lastRun, key, cooldown, now).Some? <==> Recent(s.notes, key, cooldown, now)
  {
    FullIsLatest(s.notes, clock, key);
  }

  lemma AttemptStep(s: State, clock: real, e: Event)
    requires ForgotOnlyOld(s, clock) && LogInv(s, clock) && e.Attempt? && clock <= e.now
    ensures LogInv(Step(s, e), clock)
  {
    var t := Step(s, e);
    forall j | 0 <= j < |t.log|
      ensures Spaced(t, j)
    {
      if j < |s.log| {
        assert Spaced(s, j);
      } else if 0.0 < e.cooldown <= RETENTION {
        RemainingIffRecent(s, clock, e.key, e.cooldown, e.now);
      }
    }
  }

  lemma RecordStep(s: State, clock: real, e: Event)
    requires LogInv(s, clock) && e.Record? && Timely(s, clock, e)
    ensures LogInv(Step(s, e), e.pruned)
  {
    var t := Step(s, e);
    forall j | 0 <= j < |t.log|
      ensures Spaced(t, j)
    {
      assert Spaced(s, j);
    }
  }

  lemma {:induction false} RunKeepsLog(events: seq<Event>)
    requires InOrder(events)
    ensures LogInv(Run(events), Clock(events))
  {
    if events != [] {
      var n := |events| - 1;
      var s := Run(events[..n]);
      RunKeepsLog(events[..n]);
      match events[n]
      case Attempt(_, _, _, _) =>
        RunForgetsOnlyOld(events[..n]);
        AttemptStep(s, Clock(events[..n]), events[n]);
      case Record(_, _, _) => RecordStep(s, Clock(events[..n]), events[n]);
      case Restart => assert forall j | 0 <= j < |s.log| :: Spaced(s, j) ==> Spaced(Step(s, Restart), j);
    }
  }

  /** An attempt under a cooldown of at most 24 hours executes exactly if no execution with its key was recorded
      less than the cooldown before - whatever was executed without being recorded, yet or for good. */
  lemma AttemptRunsIff(events: seq<Event>, key: string, cooldown: real, now: real)
    requires InOrder(events) && Clock(events) <= now && cooldown <= 86_400.0
    ensures var s, t := Run(events), Run(events + [Attempt(key, cooldown, false, now)]);
      t.log == if Recent(s.notes, key, cooldown, now) then s.log else s.log + [Execution(key, cooldown, now, |s.notes|)]
  {
    RunSnoc(events, Attempt(key, cooldown, false, now));
    RunForgetsOnlyOld(events);
    RunKeepsLog(events);
    RemainingIffRecent(Run(events), Clock(events), key, cooldown, now);
  }

  /** Cooldown spacing, whichever route the executions take, whatever overlaps, and across restarts: an execution
      under a cooldown of at most 24 hours is checked at least its cooldown after every record of its key that
      was made before that check, hence also after the recorded execution was itself checked. */
  lemma CooldownSpacing(events: seq<Event>, r: nat, j: nat)
    requires InOrder(events)
    requires var s := Run(events);
      j < |s.log| && r < s.log[j].seen && r < |s.notes| && s.notes[r].key == s.log[j].key && 0.0 < s.log[j].cooldown <= RETENTION
    ensures var s := Run(events);
      var first := s.notes[r].execution;
      && s.log[j].checked - s.notes[r].at >= s.log[j].cooldown
      && first < |s.log| && s.log[first].key == s.log[j].key
      && s.log[j].checked - s.log[first].checked >= s.log[j].cooldown
  {
    RunKeepsLog(events);
    assert Spaced(Run(events), j);
  }

  lemma FirstAttempt(key: string, cooldown: real, now: real)
    requires now >= 0.0
    ensures var first := Attempt(key, cooldown, false, now);
      && InOrder([first]) && Clock([first]) == 0.0
      && Run([first]) == State(map[], None, [], [Execution(key, cooldown, now, 0)], 0)
  {
    var first := Attempt(key, cooldown, false, now);
    RunSnoc([], first);
    assert [] + [first] == [first];
    assert [] + [Execution(key, cooldown, now, 0)] == [Execution(key, cooldown, now, 0)];
  }

  /** What is not recorded does not count: if the process dies between execution and record, or another handler
      checks in between, the action runs again at once. */
  lemma UnrecordedRunsAgain(key: string, cooldown: real, now: real, restart: bool)
    requires now >= 0.0
    ensures var first := Attempt(key, cooldown, false, now);
      var events := if restart then [first, Restart, first] else [first, first];
      && InOrder(events)
      && Run(events).log == [Execution(key, cooldown, now, 0), Execution(key, cooldown, now, 0)]
  {
    var first := Attempt(key, cooldown, false, now);
    var x := Execution(key, cooldown, now, 0);
    FirstAttempt(key, cooldown, now);
    if restart {
      RunSnoc([first], Restart);
      assert [first] + [Restart] == [first, Restart];
      RunSnoc([first, Restart], first);
      assert [first, Restart] + [first] == [first, Restart, first];
    } else {
      RunSnoc([first], first);
      assert [first] + [first] == [first, first];
    }
    assert [x] + [x] == [x, x];
  }

  // ----- dry runs -----

  predicate IsDry(e: Event) {
    e.Attempt? && e.dryRun
  }

  function WithoutDryRuns(events: seq<Event>): seq<Event> {
    if events == [] then []
    else
      var n := |events| - 1;
      WithoutDryRuns(events[..n]) + if IsDry(events[n]) then [] else [events[n]]
  }

  /** Dry runs leave no trace: not in the records, and not in what is executed later. */
  lemma {:induction false} DryRunsLeaveNoTrace(events: seq<Event>)
    ensures Run(events) == Run(WithoutDryRuns(events))
  {
    if events != [] {
      var n := |events| - 1;
      DryRunsLeaveNoTrace(events[..n]);
      if IsDry(events[n]) {
        assert WithoutDryRuns(events) == WithoutDryRuns(events[..n]);
      } else {
        RunSnoc(WithoutDryRuns(events[..n]), events[n]);
      }
    }
  }
}
