/** What acceptance by verify_chain proves about a log. */
module TamperEvidence {
  import opened Json
  import opened Sequences
  import opened ChainVerifier

  ghost predicate Collision(codec: Codec, x: Entry, y: Entry) {
    Body(x) != Body(y) && codec.hash(Body(x)) == codec.hash(Body(y))
  }

  /** Two entries that match their own hashes and carry the same hash are equal, or collide. */
  lemma SameHashSameEntry(codec: Codec, x: Entry, y: Entry)
    requires IsChained(x) && IsChained(y) && SelfConsistent(codec, x) && SelfConsistent(codec, y)
    requires x["entry_hash"] == y["entry_hash"]
    ensures x == y || Collision(codec, x, y)
  {
    if Body(x) == Body(y) {
      forall k
        ensures k in x <==> k in y
        ensures k in x ==> x[k] == y[k]
      {
        if k != "entry_hash" {
          assert k in x <==> k in Body(x);
          assert k in y <==> k in Body(y);
        }
      }
      assert x == y;
    }
  }

  // ----- the final hash fixes the final segment -----

  /** The entries from the last segment start on. */
  function FinalSegment(es: seq<Entry>): seq<Entry>
    requires AllChained(es)
  {
    if es == [] then []
    else
      var n := |es| - 1;
      if IsStart(es[n]) then [es[n]] else FinalSegment(es[..n]) + [es[n]]
  }

  /** Tamper evidence: two linked logs whose last entries carry the same hash have
      the same final segment, or contain two different entries with one hash. */
  lemma {:induction false} SameLastHashSameSegment(codec: Codec, a: seq<Entry>, b: seq<Entry>)
    requires Linked(codec, a) && Linked(codec, b) && a != [] && b != []
    requires a[|a| - 1]["entry_hash"] == b[|b| - 1]["entry_hash"]
    ensures FinalSegment(a) == FinalSegment(b) || exists i, j :: 0 <= i < |a| && 0 <= j < |b| && Collision(codec, a[i], b[j])
    decreases |a|
  {
    var m, n := |a| - 1, |b| - 1;
    assert WellLinked(codec, a, m) && WellLinked(codec, b, n);
    SameHashSameEntry(codec, a[m], b[n]);
    if a[m] == b[n] && !IsStart(a[m]) {
      LinkedPrefix(codec, a, m);
      LinkedPrefix(codec, b, n);
      SameLastHashSameSegment(codec, a[..m], b[..n]);
      if FinalSegment(a[..m]) != FinalSegment(b[..n]) {
        var i, j :| 0 <= i < m && 0 <= j < n && Collision(codec, a[..m][i], b[..n][j]);
        assert Collision(codec, a[i], b[j]);
      }
    }
  }

  /** The same for two whole files that verify_chain accepts. */
  lemma LastHashFixesFinalSegment(codec: Codec, a: seq<Line>, b: seq<Line>)
    requires Accepted(codec, a) && Accepted(codec, b)
    requires var x, y := Verify(codec, a).prev, Verify(codec, b).prev; x.Some? && y.Some? && x.value.hash == y.value.hash
    ensures var x, y := ChainedEntries(a), ChainedEntries(b);
      FinalSegment(x) == FinalSegment(y) || exists i, j :: 0 <= i < |x| && 0 <= j < |y| && Collision(codec, x[i], y[j])
  {
    VerifyMeaning(codec, a);
    VerifyMeaning(codec, b);
    SameLastHashSameSegment(codec, ChainedEntries(a), ChainedEntries(b));
  }

  // ----- editing a line -----

  /** Lines that the chain does not see: blank, or without the chain's keys. */
  ghost predicate Quiet(lines: seq<Line>) {
    forall l | l in lines :: l.Blank? || IsLegacyLine(l)
  }

  lemma {:induction false} QuietRun(codec: Codec, s: State, offset: nat, lines: seq<Line>)
    requires s.Running? && Quiet(lines)
    ensures var t := RunFrom(codec, s, offset, lines);
      t.Running? && t.prev == s.prev && t.checked == s.checked && t.boundaries == s.boundaries
  {
    if lines != [] {
      var n := |lines| - 1;
      assert lines[n] in lines;
      QuietRun(codec, s, offset, lines[..n]);
    }
  }

  /** The pass over x, mid, y and post from state s. */
  function RunAround(codec: Codec, s: State, offset: nat, x: Line, mid: seq<Line>, y: Line, post: seq<Line>): State {
    var t := RunFrom(codec, Step(codec, s, x, offset + 1), offset + 1, mid);
    RunFrom(codec, Step(codec, t, y, offset + |mid| + 2), offset + |mid| + 2, post)
  }

  lemma RunParts(codec: Codec, pre: seq<Line>, x: Line, mid: seq<Line>, y: Line, post: seq<Line>)
    ensures Verify(codec, pre + [x] + mid + [y] + post) == RunAround(codec, Verify(codec, pre), |pre|, x, mid, y, post)
  {
    RunComposes(codec, FRESH, 0, pre, [x]);
    RunOne(codec, Verify(codec, pre), |pre|, x);
    RunComposes(codec, FRESH, 0, pre + [x], mid);
    RunComposes(codec, FRESH, 0, pre + [x] + mid, [y]);
    RunOne(codec, Verify(codec, pre + [x] + mid), |pre| + 1 + |mid|, y);
    RunComposes(codec, FRESH, 0, pre + [x] + mid + [y], post);
  }

  /** y is the next chained entry after x and continues it. */
  ghost predicate Consecutive(x: Entry, mid: seq<Line>, y: Entry) {
    IsChained(x) && IsChained(y) && !IsStart(y) && Quiet(mid)
  }

  /** z is another line than x, and no other body with the hash of x. */
  ghost predicate Replaces(codec: Codec, x: Entry, z: Line) {
    z != Record(x) && (z.Record? ==> !Collision(codec, x, z.entry))
  }

  /** x starts a segment but repeats number and hash of the entry before it. */
  ghost predicate Repeats(s: State, x: Entry)
    requires IsChained(x)
  {
    s.Running? && IsStart(x) && s.prev == LinkOf(x)
  }

  /** With z in front of mid, y and post the pass stops: at z exactly if it cannot take z, else at y with a broken link. */
  ghost predicate Reported(codec: Codec, pre: seq<Line>, z: Line, mid: seq<Line>, y: Line, post: seq<Line>) {
    var s := Step(codec, Verify(codec, pre), z, |pre| + 1);
    var r := Verify(codec, pre + [z] + mid + [y] + post);
    if s.Running? then r.Failed? && r.line == |pre| + |mid| + 2 && r.fault == BrokenLink
    else r == s && s.line == |pre| + 1
  }

  /** Edit localisation. In an accepted log let x be a chained entry whose next chained entry y continues it.
      Whatever replaces the line of x (an edited or re-hashed entry, a legacy entry, a restart at genesis, a
      blank line, text that is no JSON), verify_chain stops at that line or at the line of y - unless the new
      entry has another body with the same hash as x, or x is a segment start that repeats the entry before it. */
  lemma EditDetected(codec: Codec, pre: seq<Line>, x: Entry, mid: seq<Line>, y: Entry, post: seq<Line>, z: Line)
    requires Consecutive(x, mid, y) && !Repeats(Verify(codec, pre), x) && Replaces(codec, x, z)
    requires Accepted(codec, pre + [Record(x)] + mid + [Record(y)] + post)
    ensures Reported(codec, pre, z, mid, Record(y), post)
  {
    RunParts(codec, pre, Record(x), mid, Record(y), post);
    RunParts(codec, pre, z, mid, Record(y), post);
    var s := Verify(codec, pre);
    LinkContext(codec, s, |pre|, x, mid, y, post);
    EditDetectedFrom(codec, s, |pre|, x, mid, y, post, z);
  }

  /** Such a start is the exact exception: blanking its line passes. */
  lemma EditDetectedIff(codec: Codec, pre: seq<Line>, x: Entry, mid: seq<Line>, y: Entry, post: seq<Line>)
    requires Consecutive(x, mid, y)
    requires Accepted(codec, pre + [Record(x)] + mid + [Record(y)] + post)
    ensures (forall z | Replaces(codec, x, z) :: Reported(codec, pre, z, mid, Record(y), post)) <==> !Repeats(Verify(codec, pre), x)
  {
    if Repeats(Verify(codec, pre), x) {
      RunParts(codec, pre, Record(x), mid, Record(y), post);
      RunParts(codec, pre, Blank, mid, Record(y), post);
      LinkContext(codec, Verify(codec, pre), |pre|, x, mid, y, post);
      BlankedRepeatPasses(codec, Verify(codec, pre), |pre|, x, mid, Record(y), post);
      assert Replaces(codec, x, Blank) && !Reported(codec, pre, Blank, mid, Record(y), post);
    } else {
      forall z | Replaces(codec, x, z)
        ensures Reported(codec, pre, z, mid, Record(y), post)
      {
        EditDetected(codec, pre, x, mid, y, post, z);
      }
    }
  }

  lemma BlankedRepeatPasses(codec: Codec, s: State, offset: nat, x: Entry, mid: seq<Line>, y: Line, post: seq<Line>)
    requires IsChained(x) && Repeats(s, x) && SelfConsistent(codec, x)
    requires RunAround(codec, s, offset, Record(x), mid, y, post).Running?
    ensures RunAround(codec, s, offset, Blank, mid, y, post).Running?
  {
    var rest := mid + [y] + post;
    var t := Step(codec, s, Record(x), offset + 1);
    AroundIsRun(codec, s, offset, Record(x), mid, y, post);
    AroundIsRun(codec, s, offset, Blank, mid, y, post);
    SameVerdict(codec, s, offset + 1, t, offset + 1, rest);
  }

  lemma AroundIsRun(codec: Codec, s: State, offset: nat, x: Line, mid: seq<Line>, y: Line, post: seq<Line>)
    ensures RunAround(codec, s, offset, x, mid, y, post) ==
      RunFrom(codec, Step(codec, s, x, offset + 1), offset + 1, mid + [y] + post)
  {
    var t := Step(codec, s, x, offset + 1);
    RunComposes(codec, t, offset + 1, mid + [y], post);
    RunComposes(codec, t, offset + 1, mid, [y]);
    RunOne(codec, RunFrom(codec, t, offset + 1, mid), offset + 1 + |mid|, y);
  }

  lemma EditDetectedFrom(codec: Codec, s0: State, offset: nat, x: Entry, mid: seq<Line>, y: Entry, post: seq<Line>, z: Line)
    requires Consecutive(x, mid, y) && LinkedHere(codec, s0, x, y)
    requires !Repeats(s0, x) && Replaces(codec, x, z)
    ensures var s := Step(codec, s0, z, offset + 1);
      var r := RunAround(codec, s0, offset, z, mid, Record(y), post);
      if s.Running? then r.Failed? && r.line == offset + |mid| + 2 && r.fault == BrokenLink
      else r == s && s.line == offset + 1
  {
    var s := Step(codec, s0, z, offset + 1);
    if s.Running? {
      QuietRun(codec, s, offset + 1, mid);
      var t := RunFrom(codec, s, offset + 1, mid);
      ReplacedLinkBreaks(codec, s0, x, y, z, offset + 1);
      Absorbing(codec, Step(codec, t, Record(y), offset + |mid| + 2), offset + |mid| + 2, post);
    } else {
      Absorbing(codec, s, offset + 1, mid);
      Absorbing(codec, s, offset + |mid| + 2, post);
    }
  }

  /** From state s, the pass takes x and then y as its continuation. */
  ghost predicate LinkedHere(codec: Codec, s: State, x: Entry, y: Entry)
    requires IsChained(x) && IsChained(y)
  {
    && s.Running?
    && SelfConsistent(codec, x) && SelfConsistent(codec, y)
    && y["prev_hash"] == x["entry_hash"]
    && (IsStart(x) || (s.prev.Some? && Continues(s.prev.value, x)))
    && IntegerValue(x["sequence"]).Some?
    && IntegerValue(y["sequence"]) == Some(IntegerValue(x["sequence"]).value + 1)
  }

  lemma LinkContext(codec: Codec, s0: State, offset: nat, x: Entry, mid: seq<Line>, y: Entry, post: seq<Line>)
    requires Consecutive(x, mid, y)
    requires RunAround(codec, s0, offset, Record(x), mid, Record(y), post).Running?
    ensures LinkedHere(codec, s0, x, y)
  {
    var s := Step(codec, s0, Record(x), offset + 1);
    var t := RunFrom(codec, s, offset + 1, mid);
    var u := Step(codec, t, Record(y), offset + |mid| + 2);
    if !u.Running? {
      Absorbing(codec, u, offset + |mid| + 2, post);
    }
    if !s.Running? {
      Absorbing(codec, s, offset + 1, mid);
    }
    QuietRun(codec, s, offset + 1, mid);
  }

  /** If the pass takes z in the place of x, then y does not continue from there. */
  lemma ReplacedLinkBreaks(codec: Codec, s: State, x: Entry, y: Entry, z: Line, number: nat)
    requires s.Running? && IsChained(x) && IsChained(y)
    requires SelfConsistent(codec, x) && y["prev_hash"] == x["entry_hash"]
    requires IsStart(x) || (s.prev.Some? && Continues(s.prev.value, x))
    requires !Repeats(s, x) && Replaces(codec, x, z)
    requires IntegerValue(x["sequence"]).Some?
    requires IntegerValue(y["sequence"]) == Some(IntegerValue(x["sequence"]).value + 1)
    requires Step(codec, s, z, number).Running?
    ensures var prev := Step(codec, s, z, number).prev; prev.None? || !Continues(prev.value, y)
  {
    if IsChainLine(z) && z.entry["entry_hash"] == x["entry_hash"] {
      SameHashSameEntry(codec, x, z.entry);
    }
  }

  /** In a log of one segment without other lines: replacing any line but the last by
      anything else is reported at that line or at the next one. */
  lemma {:induction false} EditOfSegmentDetected(codec: Codec, lines: seq<Line>, i: nat, z: Line)
    requires Accepted(codec, lines) && Verify(codec, lines).boundaries == []
    requires forall k :: 0 <= k < |lines| ==> IsChainLine(lines[k])
    requires i < |lines| - 1 && IsChainLine(lines[i]) && Replaces(codec, lines[i].entry, z)
    ensures var r := Verify(codec, lines[i := z]); !r.Running? && i + 1 <= r.line <= i + 2
  {
    var x, y := lines[i].entry, lines[i + 1].entry;
    var pre, post := lines[..i], lines[i + 2..];
    assert lines == pre + [Record(x)] + [] + [Record(y)] + post;
    assert lines[i := z] == pre + [z] + [] + [Record(y)] + post;
    assert forall k | 0 < k < |lines| :: !IsStart(lines[k].entry) by {
      VerifyMeaning(codec, lines);
      forall k | 0 < k < |lines|
        ensures !IsStart(lines[k].entry)
      {
        assert lines[..k][k - 1] == lines[k - 1];
        assert !IsBoundary(lines, k + 1);
      }
    }
    EditDetected(codec, pre, x, [], y, post, z);
  }

  /** x and y stand at lines i and j with quiet lines between, and y continues x. */
  ghost predicate NextChained(lines: seq<Line>, i: nat, j: nat) {
    && i < j < |lines| && IsChainLine(lines[i]) && IsChainLine(lines[j]) && !IsStart(lines[j].entry)
    && forall m :: i < m < j ==> lines[m].Blank? || IsLegacyLine(lines[m])
  }

  /** The entry at line i starts a segment but repeats number and hash of the chained entry before it. */
  ghost predicate RepeatsBefore(lines: seq<Line>, i: nat)
    requires i < |lines| && IsChainLine(lines[i])
  {
    var before := ChainedEntries(lines[..i]);
    IsStart(lines[i].entry) && before != [] && LinkOf(before[|before| - 1]) == LinkOf(lines[i].entry)
  }

  /** What verify_chain reports on an edit of a good log: not ok, at the edited line, or at that of the next chained
      entry, which is out of place; it raises only over a line that is JSON but no object. */
  lemma EditReported(codec: Codec, lines: seq<Line>, i: nat, j: nat, z: Line, report: Option<Report>)
    requires Good(codec, lines) && NextChained(lines, i, j) && !RepeatsBefore(lines, i) && Replaces(codec, lines[i].entry, z)
    requires Verdict(codec, lines[i := z], report)
    ensures report.None? ==> z == NotAnObject
    ensures report.Some? ==>
      !report.value.ok && (report.value.firstBrokenLine == Some(i + 1) ||
                           (report.value.firstBrokenLine == Some(j + 1) && report.value.detail == Some(BrokenLink)))
  {
    var k := EditStops(codec, lines, i, j, z);
    ReportNames(codec, lines[i := z], k, report);
  }

  lemma EditStops(codec: Codec, lines: seq<Line>, i: nat, j: nat, z: Line) returns (k: nat)
    requires Good(codec, lines) && NextChained(lines, i, j) && !RepeatsBefore(lines, i) && Replaces(codec, lines[i].entry, z)
    ensures k == i + 1 || k == j + 1
    ensures FirstBad(codec, lines[i := z], k) && (k == j + 1 ==> FaultOf(codec, lines[j]) == BrokenLink)
  {
    var pre, mid, post := lines[..i], lines[i + 1..j], lines[j + 1..];
    LinesInParts(lines, i, j, z);
    VerifyMeaning(codec, lines);
    VerifyMeaning(codec, pre);
    EditDetected(codec, pre, lines[i].entry, mid, lines[j].entry, post, z);
    k := Verify(codec, lines[i := z]).line;
    StopIsFirstBad(codec, lines[i := z]);
  }

  lemma LinesInParts(lines: seq<Line>, i: nat, j: nat, z: Line)
    requires i < j < |lines|
    ensures lines == lines[..i] + [lines[i]] + lines[i + 1..j] + [lines[j]] + lines[j + 1..]
    ensures lines[i := z] == lines[..i] + [z] + lines[i + 1..j] + [lines[j]] + lines[j + 1..]
  {
  }

  lemma StopIsFirstBad(codec: Codec, lines: seq<Line>)
    requires !Accepted(codec, lines)
    ensures var s := Verify(codec, lines); FirstBad(codec, lines, s.line) && (s.Failed? ==> s.fault == FaultOf(codec, lines[s.line - 1]))
  {
    FirstBrokenLineIsFirst(codec, lines);
    var k := Verify(codec, lines).line;
    VerifyMeaning(codec, lines[..k - 1]);
    VerifyMeaning(codec, lines[..k]);
    PassStep(codec, lines, k - 1);
    AbsorbingFrom(codec, lines, k);
    StoppedBy(codec, Verify(codec, lines[..k - 1]), lines[k - 1], k);
  }

  /** Inserting a chained entry between two consecutive entries, with blank or legacy lines around it,
      passes only if it repeats the start of the segment that it follows - and then it does pass. */
  lemma InsertionDetected(codec: Codec, pre: seq<Line>, x: Entry, m: seq<Line>, z: Entry, n: seq<Line>, y: Entry, post: seq<Line>)
    requires Consecutive(x, m + n, y) && IsChained(z) && !Collision(codec, x, z)
    requires Accepted(codec, pre + [Record(x)] + (m + n) + [Record(y)] + post)
    ensures Accepted(codec, pre + [Record(x)] + (m + [Record(z)] + n) + [Record(y)] + post) <==> z == x && IsStart(x)
  {
    RunParts(codec, pre, Record(x), m + n, Record(y), post);
    RunParts(codec, pre, Record(x), m + [Record(z)] + n, Record(y), post);
    InsertionDetectedFrom(codec, Verify(codec, pre), |pre|, x, m, z, n, y, post);
  }

  lemma InsertionDetectedFrom(codec: Codec, s0: State, offset: nat, x: Entry, m: seq<Line>, z: Entry, n: seq<Line>, y: Entry, post: seq<Line>)
    requires Consecutive(x, m + n, y) && IsChained(z) && !Collision(codec, x, z)
    requires RunAround(codec, s0, offset, Record(x), m + n, Record(y), post).Running?
    ensures RunAround(codec, s0, offset, Record(x), m + [Record(z)] + n, Record(y), post).Running? <==> z == x && IsStart(x)
  {
    LinkContext(codec, s0, offset, x, m + n, y, post);
    var s := Step(codec, s0, Record(x), offset + 1);
    var t := RunFrom(codec, s, offset + 1, m);
    AroundSplit(codec, s0, offset, Record(x), m, n, Record(y), post);
    AroundInserted(codec, s0, offset, Record(x), m, Record(z), n, Record(y), post);
    QuietParts(m, n);
    QuietRun(codec, s, offset + 1, m);
    InsertedStep(codec, s0, s, t, offset + 1 + |m|, x, z, n, y, post);
  }

  lemma RunFirst(codec: Codec, s: State, offset: nat, line: Line, rest: seq<Line>)
    ensures RunFrom(codec, s, offset, [line] + rest) == RunFrom(codec, Step(codec, s, line, offset + 1), offset + 1, rest)
  {
    RunComposes(codec, s, offset, [line], rest);
    RunOne(codec, s, offset, line);
  }

  lemma AroundInserted(codec: Codec, s: State, offset: nat, x: Line, m: seq<Line>, z: Line, n: seq<Line>, y: Line, post: seq<Line>)
    ensures var t := RunFrom(codec, Step(codec, s, x, offset + 1), offset + 1, m);
      RunAround(codec, s, offset, x, m + [z] + n, y, post) ==
      RunFrom(codec, Step(codec, t, z, offset + 2 + |m|), offset + 2 + |m|, n + [y] + post)
  {
    var t := RunFrom(codec, Step(codec, s, x, offset + 1), offset + 1, m);
    Regroup(m, [z], n);
    AroundSplit(codec, s, offset, x, m, [z] + n, y, post);
    Regroup([z], n, [y]);
    Regroup([z], n + [y], post);
    RunFirst(codec, t, offset + 1 + |m|, z, n + [y] + post);
  }

  lemma AroundSplit(codec: Codec, s: State, offset: nat, x: Line, m: seq<Line>, n: seq<Line>, y: Line, post: seq<Line>)
    ensures RunAround(codec, s, offset, x, m + n, y, post) ==
      RunFrom(codec, RunFrom(codec, Step(codec, s, x, offset + 1), offset + 1, m), offset + 1 + |m|, n + [y] + post)
  {
    AroundIsRun(codec, s, offset, x, m + n, y, post);
    Regroup(m, n, [y]);
    Regroup(m, n + [y], post);
    RunComposes(codec, Step(codec, s, x, offset + 1), offset + 1, m, n + [y] + post);
  }

  lemma QuietParts(m: seq<Line>, n: seq<Line>)
    requires Quiet(m + n)
    ensures Quiet(m) && Quiet(n)
  {
    assert forall l | l in m :: l in m + n;
    assert forall l | l in n :: l in m + n;
  }

  /** From state t, whose last link is x, the rest with z in front. */
  lemma InsertedStep(codec: Codec, s0: State, s: State, t: State, offset: nat, x: Entry, z: Entry, n: seq<Line>, y: Entry, post: seq<Line>)
    requires Consecutive(x, n, y) && IsChained(z) && !Collision(codec, x, z)
    requires LinkedHere(codec, s0, x, y) && s.Running? && t.Running? && t.prev == s.prev == LinkOf(x)
    requires RunFrom(codec, t, offset, n + [Record(y)] + post).Running?
    ensures RunFrom(codec, Step(codec, t, Record(z), offset + 1), offset + 1, n + [Record(y)] + post).Running? <==> z == x && IsStart(x)
  {
    var u := Step(codec, t, Record(z), offset + 1);
    var tail := n + [Record(y)] + post;
    if !u.Running? {
      Absorbing(codec, u, offset + 1, tail);
    } else if u.prev == t.prev {
      SameVerdict(codec, u, offset + 1, t, offset, tail);
      SameHashSameEntry(codec, x, z);
    } else {
      QuietRun(codec, u, offset + 1, n);
      var v := RunFrom(codec, u, offset + 1, n);
      RunComposes(codec, u, offset + 1, n + [Record(y)], post);
      RunComposes(codec, u, offset + 1, n, [Record(y)]);
      RunOne(codec, v, offset + 1 + |n|, Record(y));
      Absorbing(codec, Step(codec, v, Record(y), offset + 2 + |n|), offset + 2 + |n|, post);
    }
  }

  /** The verdict depends on the last link only, not on counts and line numbers. */
  lemma {:induction false} SameVerdict(codec: Codec, s: State, m: nat, t: State, n: nat, lines: seq<Line>)
    requires s.Running? && t.Running? && s.prev == t.prev
    ensures var u, v := RunFrom(codec, s, m, lines), RunFrom(codec, t, n, lines);
      (u.Running? <==> v.Running?) && (u.Running? ==> u.prev == v.prev)
  {
    if lines != [] {
      SameVerdict(codec, s, m, t, n, lines[..|lines| - 1]);
    }
  }

  // ----- reordering and deletion -----

  ghost predicate OneSegment(codec: Codec, es: seq<Entry>) {
    Linked(codec, es) && forall k :: 0 < k < |es| ==> !IsStart(es[k])
  }

  lemma {:induction false} SegmentNumbers(codec: Codec, es: seq<Entry>, k: nat)
    requires OneSegment(codec, es) && k < |es|
    ensures IntegerValue(es[k]["sequence"]) == Some(k + 1)
  {
    assert WellLinked(codec, es, k);
    if k > 0 {
      SegmentNumbers(codec, es, k - 1);
    }
  }

  lemma SegmentDistinct(codec: Codec, es: seq<Entry>, i: nat, j: nat)
    requires OneSegment(codec, es) && i < |es| && j < |es| && es[i] == es[j]
    ensures i == j
  {
    SegmentNumbers(codec, es, i);
    SegmentNumbers(codec, es, j);
  }

  /** Any accepted log made only of entries of one segment is a row of prefixes of that segment. */
  lemma {:induction false} RearrangedStep(codec: Codec, a: seq<Entry>, b: seq<Entry>, k: nat) returns (m: nat)
    requires OneSegment(codec, a) && Linked(codec, b) && k < |b|
    requires forall e | e in b :: e in a
    ensures m < |a| && b[k] == a[m] && (m == 0 || (k > 0 && b[k - 1] == a[m - 1]))
  {
    assert b[k] in b;
    m :| m < |a| && a[m] == b[k];
    if m > 0 {
      assert WellLinked(codec, b, k);
      assert b[k - 1] in b;
      var p: nat :| p < |a| && a[p] == b[k - 1];
      SegmentNumbers(codec, a, m);
      SegmentNumbers(codec, a, p);
    }
  }

  lemma CountAtLeastTwo<T>(s: seq<T>, i: nat, k: nat)
    requires i < k < |s| && s[i] == s[k]
    ensures multiset(s)[s[i]] >= 2
  {
    assert s == s[..k] + s[k..];
    assert s[..k][i] == s[i] && s[k..][0] == s[k];
    assert s[i] in s[..k] && s[i] in s[k..];
  }

  lemma {:induction false} CountAtMostOne<T>(s: seq<T>, x: T)
    requires forall i, j :: 0 <= i < j < |s| ==> s[i] != s[j]
    ensures multiset(s)[x] <= 1
  {
    if s != [] {
      var n := |s| - 1;
      CountAtMostOne(s[..n], x);
      assert s == s[..n] + [s[n]];
      if x == s[n] {
        assert x !in s[..n];
      }
    }
  }

  /** No reordering or interior deletion passes, whatever the hash: a selection of the entries of
      one segment, in any order, is linked exactly if it is a prefix of that segment. */
  lemma RearrangementIsPrefix(codec: Codec, a: seq<Entry>, b: seq<Entry>)
    requires OneSegment(codec, a) && multiset(b) <= multiset(a)
    ensures Linked(codec, b) <==> b <= a
  {
    if b <= a {
      LinkedPrefix(codec, a, |b|);
      assert a[..|b|] == b;
    }
    if Linked(codec, b) {
      SelectedFrom(a, b);
      RearrangementPrefixTo(codec, a, b, |b|);
      assert b == b[..|b|] && a[..|b|] == b;
    }
  }

  lemma SelectedFrom<T>(a: seq<T>, b: seq<T>)
    requires multiset(b) <= multiset(a)
    ensures forall e | e in b :: e in a
    ensures |b| <= |a|
  {
    forall e | e in b
      ensures e in a
    {
      assert e in multiset(b);
      assert e in multiset(a);
    }
    assert |multiset(a)| == |multiset(b)| + |multiset(a) - multiset(b)|;
  }

  lemma {:induction false} RearrangementPrefixTo(codec: Codec, a: seq<Entry>, b: seq<Entry>, n: nat)
    requires OneSegment(codec, a) && multiset(b) <= multiset(a) && Linked(codec, b)
    requires forall e | e in b :: e in a
    requires n <= |b| <= |a|
    ensures b[..n] == a[..n]
  {
    if n > 0 {
      var k := n - 1;
      RearrangementPrefixTo(codec, a, b, k);
      RearrangementNext(codec, a, b, k);
      assert b[..n] == b[..k] + [b[k]] && a[..n] == a[..k] + [a[k]];
    }
  }

  lemma {:induction false} RearrangementNext(codec: Codec, a: seq<Entry>, b: seq<Entry>, k: nat)
    requires OneSegment(codec, a) && multiset(b) <= multiset(a) && Linked(codec, b)
    requires forall e | e in b :: e in a
    requires k < |b| <= |a| && b[..k] == a[..k]
    ensures b[k] == a[k]
  {
    var m := RearrangedStep(codec, a, b, k);
    if k > 0 {
      assert b[0] == b[..k][0] == a[..k][0] == a[0];
      assert b[k - 1] == b[..k][k - 1] == a[..k][k - 1] == a[k - 1];
      if m == 0 {
        StartOnlyOnce(codec, a, b, k);
      } else {
        SegmentDistinct(codec, a, m - 1, k - 1);
      }
    }
  }

  lemma StartOnlyOnce(codec: Codec, a: seq<Entry>, b: seq<Entry>, k: nat)
    requires OneSegment(codec, a) && multiset(b) <= multiset(a)
    requires 0 < k < |b| && a != [] && b[0] == a[0]
    ensures b[k] != a[0]
  {
    if b[k] == a[0] {
      CountAtLeastTwo(b, 0, k);
      forall i, j | 0 <= i < j < |a|
        ensures a[i] != a[j]
      {
        if a[i] == a[j] {
          SegmentDistinct(codec, a, i, j);
        }
      }
      CountAtMostOne(a, a[0]);
    }
  }

  /** The same for files: legacy and blank lines may move freely. */
  lemma RearrangedFileIsPrefix(codec: Codec, a: seq<Line>, b: seq<Line>)
    requires Accepted(codec, a) && Verify(codec, a).boundaries == []
    requires Readable(b) && multiset(ChainedEntries(b)) <= multiset(ChainedEntries(a))
    ensures Accepted(codec, b) <==> ChainedEntries(b) <= ChainedEntries(a)
  {
    VerifyMeaning(codec, a);
    VerifyMeaning(codec, b);
    NoBoundaryOneSegment(codec, a);
    RearrangementIsPrefix(codec, ChainedEntries(a), ChainedEntries(b));
  }

  lemma {:induction false} NoBoundaryOneSegment(codec: Codec, lines: seq<Line>)
    requires Readable(lines) && Linked(codec, ChainedEntries(lines))
    requires forall n :: !IsBoundary(lines, n)
    ensures OneSegment(codec, ChainedEntries(lines))
  {
    if lines != [] {
      var n := |lines| - 1;
      var es, fs := ChainedEntries(lines[..n]), ChainedEntries(lines);
      LinkedPrefix(codec, fs, |es|);
      assert fs[..|es|] == es;
      forall m: nat
        ensures !IsBoundary(lines[..n], m)
      {
        if 1 <= m <= n {
          assert lines[..n][..m - 1] == lines[..m - 1];
          assert !IsBoundary(lines, m);
        }
      }
      ReadableSnoc(lines);
      NoBoundaryOneSegment(codec, lines[..n]);
      assert !IsBoundary(lines, n + 1);
      forall k | 0 < k < |fs|
        ensures !IsStart(fs[k])
      {
        assert k < |es| ==> fs[k] == es[k];
      }
    }
  }
}
