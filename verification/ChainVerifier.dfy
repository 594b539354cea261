/** verify_chain: one forward pass over the lines of an audit log. */
module ChainVerifier {
  import opened Json
  import opened TextLines

  const GENESIS: string := "0000000000000000000000000000000000000000000000000000000000000000"

  /** One stripped line of the log. */
  datatype Line = Blank | NotJson | NotAnObject | Record(entry: Entry)

  function Classify(codec: Codec, raw: string): Line {
    var text := Strip(raw);
    if text == "" then Blank
    else match codec.parse(text)
      case Malformed => NotJson
      case NonObject => NotAnObject
      case Object(e) => Record(e)
  }

  function ClassifyAll(codec: Codec, raw: seq<string>): (ls: seq<Line>)
    ensures |ls| == |raw| && forall i :: 0 <= i < |raw| ==> ls[i] == Classify(codec, raw[i])
  {
    seq(|raw|, i requires 0 <= i < |raw| => Classify(codec, raw[i]))
  }

  function LogLines(codec: Codec, content: string): (ls: seq<Line>)
    ensures |ls| == |SplitLines(content)|
  {
    ClassifyAll(codec, SplitLines(content))
  }

  // ----- entries -----

  predicate IsChained(e: Entry) {
    "sequence" in e && "prev_hash" in e && "entry_hash" in e
  }

  /** The part of an entry that its hash covers. */
  function Body(e: Entry): Entry {
    e - {"entry_hash"}
  }

  predicate SelfConsistent(codec: Codec, e: Entry)
    requires IsChained(e)
  {
    e["entry_hash"] == Str(codec.hash(Body(e)))
  }

  /** Sequence 1 after the genesis hash: the first entry of a segment. */
  predicate IsStart(e: Entry)
    requires IsChained(e)
  {
    IntegerValue(e["sequence"]) == Some(1) && e["prev_hash"] == Str(GENESIS)
  }

  /** What verify_chain remembers of the last chained entry. */
  datatype Link = Link(sequence: int, hash: Value)

  predicate Continues(link: Link, e: Entry)
    requires IsChained(e)
  {
    IntegerValue(e["sequence"]) == Some(link.sequence + 1) && e["prev_hash"] == link.hash
  }

  // ----- the pass -----

  datatype Fault = InvalidJson | HashMismatch | BrokenLink

  /** The state of the pass; Crashed is the AttributeError that a line which is JSON
      but not an object causes. */
  datatype State =
    | Running(prev: Option<Link>, checked: nat, legacy: nat, boundaries: seq<nat>)
    | Failed(line: nat, fault: Fault, checked: nat, legacy: nat, boundaries: seq<nat>)
    | Crashed(line: nat)

  const FRESH := Running(None, 0, 0, [])

  function StepEntry(codec: Codec, s: State, e: Entry, number: nat): State
    requires s.Running?
  {
    if !IsChained(e) then Running(s.prev, s.checked, s.legacy + 1, s.boundaries)
    else if !SelfConsistent(codec, e) then Failed(number, HashMismatch, s.checked, s.legacy, s.boundaries)
    else if IsStart(e) then
      Running(Some(Link(1, e["entry_hash"])), s.checked + 1, s.legacy,
              if s.prev.Some? then s.boundaries + [number] else s.boundaries)
    else if s.prev.Some? && Continues(s.prev.value, e) then
      Running(Some(Link(s.prev.value.sequence + 1, e["entry_hash"])), s.checked + 1, s.legacy, s.boundaries)
    else Failed(number, BrokenLink, s.checked, s.legacy, s.boundaries)
  }

  function Step(codec: Codec, s: State, line: Line, number: nat): State {
    if !s.Running? then s
    else match line
      case Blank => s
      case NotJson => Failed(number, InvalidJson, s.checked, s.legacy, s.boundaries)
      case NotAnObject => Crashed(number)
      case Record(e) => StepEntry(codec, s, e, number)
  }

  /** The state after `lines`, of which the first has number offset + 1. */
  function RunFrom(codec: Codec, s: State, offset: nat, lines: seq<Line>): State {
    if lines == [] then s
    else
      var n := |lines| - 1;
      Step(codec, RunFrom(codec, s, offset, lines[..n]), lines[n], offset + n + 1)
  }

  function Verify(codec: Codec, lines: seq<Line>): State {
    RunFrom(codec, FRESH, 0, lines)
  }

  /** verify_chain's own report, or None when it raises. */
  datatype Report = Report(ok: bool, entriesChecked: nat, legacyEntries: nat,
                           segmentBoundaries: seq<nat>, firstBrokenLine: Option<nat>, detail: Option<Fault>)

  function ReportOf(s: State): Option<Report> {
    match s
    case Running(_, checked, legacy, boundaries) => Some(Report(true, checked, legacy, boundaries, None, None))
    case Failed(line, fault, checked, legacy, boundaries) => Some(Report(false, checked, legacy, boundaries, Some(line), Some(fault)))
    case Crashed(_) => None
  }

  /** The checks of one entry: legacy entries are counted, then the hash, then the link. */
  method PassEntry(codec: Codec, s: State, entry: Entry, number: nat) returns (next: State)
    requires s.Running?
    ensures next == StepEntry(codec, s, entry, number)
  {
    if !IsChained(entry) {
      return Running(s.prev, s.checked, s.legacy + 1, s.boundaries);
    }
    var recomputed := codec.hash(Body(entry));
    if Str(recomputed) != entry["entry_hash"] {
      return Failed(number, HashMismatch, s.checked, s.legacy, s.boundaries);
    }
    var sequence := IntegerValue(entry["sequence"]);
    var isNewSegment := sequence == Some(1) && entry["prev_hash"] == Str(GENESIS);
    var isContinuation :=
      s.prev.Some? && sequence == Some(s.prev.value.sequence + 1) && entry["prev_hash"] == s.prev.value.hash;
    var boundaries := s.boundaries;
    if isNewSegment {
      if s.prev.Some? {
        boundaries := boundaries + [number];
      }
    } else if !isContinuation {
      return Failed(number, BrokenLink, s.checked, s.legacy, s.boundaries);
    }
    return Running(Some(Link(sequence.value, entry["entry_hash"])), s.checked + 1, s.legacy, boundaries);
  }

  /** One line of the file. */
  method PassLine(codec: Codec, s: State, line: string, number: nat) returns (next: State)
    requires s.Running?
    ensures next == Step(codec, s, Classify(codec, line), number)
  {
    var raw := Strip(line);
    if raw == "" {
      return s;
    }
    match codec.parse(raw)
    case Malformed => return Failed(number, InvalidJson, s.checked, s.legacy, s.boundaries);
    case NonObject => return Crashed(number);
    case Object(entry) => next := PassEntry(codec, s, entry, number);
  }

  /** verify_chain. Its report is ok exactly if the log is good, and then has no broken line and the counts of the log.
      Otherwise it names the first line up to which the log is not good and what is wrong with it, with the counts
      of the lines before. It raises exactly if that line is JSON but no object. */
  method VerifyChain(codec: Codec, file: Option<string>) returns (report: Option<Report>)
    ensures file.None? ==> report == Some(Report(true, 0, 0, [], None, None))
    ensures file.Some? ==>
      var lines := LogLines(codec, file.value);
      && (report.Some? ==> (report.value.ok <==> Readable(lines) && Linked(codec, ChainedEntries(lines))))
      && (report.Some? && report.value.ok ==>
           report.value.firstBrokenLine == None && report.value.detail == None && Counts(report.value, lines))
      && (report.Some? && !report.value.ok ==>
           && report.value.firstBrokenLine.Some?
           && FirstBad(codec, lines, report.value.firstBrokenLine.value)
           && report.value.detail == Some(FaultOf(codec, lines[report.value.firstBrokenLine.value - 1]))
           && Counts(report.value, lines[..report.value.firstBrokenLine.value - 1]))
      && (report.None? <==> exists k :: FirstBad(codec, lines, k) && lines[k - 1] == NotAnObject)
  {
    if file.None? {
      return Some(Report(true, 0, 0, [], None, None));
    }
    report := VerifyContent(codec, file.value);
    ReportIsRight(codec, LogLines(codec, file.value));
  }

  /** The loop over the lines of the file. */
  method VerifyContent(codec: Codec, content: string) returns (report: Option<Report>)
    ensures report == ReportOf(Verify(codec, LogLines(codec, content)))
  {
    var lines := SplitLines(content);
    ghost var states := PassStates(codec, content);
    var state := FRESH;
    for i := 0 to |lines|
      invariant state == states[i] && state.Running?
    {
      assert states[i + 1] == Step(codec, states[i], Classify(codec, lines[i]), i + 1);
      state := PassLine(codec, state, lines[i], i + 1);
      if !state.Running? {
        return ReportOf(state);
      }
    }
    return ReportOf(state);
  }

  /** The states that the pass goes through. */
  lemma PassStates(codec: Codec, content: string) returns (states: seq<State>)
    ensures var raw := SplitLines(content);
      && |states| == |raw| + 1 && states[0] == FRESH
      && (forall i :: 0 <= i < |raw| ==> states[i + 1] == Step(codec, states[i], Classify(codec, raw[i]), i + 1))
      && (forall i :: 0 <= i <= |raw| && !states[i].Running? ==> states[i] == states[|raw|])
      && states[|raw|] == Verify(codec, LogLines(codec, content))
  {
    var lines := LogLines(codec, content);
    states := seq(|lines| + 1, i requires 0 <= i <= |lines| => Verify(codec, lines[..i]));
    assert lines[..|lines|] == lines;
    forall i | 0 <= i < |lines|
      ensures states[i + 1] == Step(codec, states[i], lines[i], i + 1)
    {
      PassStep(codec, lines, i);
    }
    forall i | 0 <= i <= |lines| && !states[i].Running?
      ensures states[i] == states[|lines|]
    {
      AbsorbingFrom(codec, lines, i);
    }
  }

  // ----- composition -----

  /** Verification of a + b is verification of b from the state that a leaves. */
  lemma {:induction false} RunComposes(codec: Codec, s: State, offset: nat, a: seq<Line>, b: seq<Line>)
    ensures RunFrom(codec, s, offset, a + b) == RunFrom(codec, RunFrom(codec, s, offset, a), offset + |a|, b)
    decreases |b|
  {
    if b == [] {
      assert a + b == a;
    } else {
      var n := |b| - 1;
      assert (a + b)[..|a| + n] == a + b[..n];
      RunComposes(codec, s, offset, a, b[..n]);
    }
  }

  /** Once the pass has stopped, later lines change nothing. */
  lemma {:induction false} Absorbing(codec: Codec, s: State, offset: nat, lines: seq<Line>)
    requires !s.Running?
    ensures RunFrom(codec, s, offset, lines) == s
  {
    if lines != [] {
      Absorbing(codec, s, offset, lines[..|lines| - 1]);
    }
  }

  lemma AbsorbingFrom(codec: Codec, lines: seq<Line>, i: nat)
    requires i <= |lines|
    requires !Verify(codec, lines[..i]).Running?
    ensures Verify(codec, lines) == Verify(codec, lines[..i])
  {
    assert lines == lines[..i] + lines[i..];
    RunComposes(codec, FRESH, 0, lines[..i], lines[i..]);
    Absorbing(codec, Verify(codec, lines[..i]), i, lines[i..]);
  }

  lemma PassStep(codec: Codec, lines: seq<Line>, i: nat)
    requires i < |lines|
    ensures Verify(codec, lines[..i + 1]) == Step(codec, Verify(codec, lines[..i]), lines[i], i + 1)
  {
    assert lines[..i + 1][..i] == lines[..i];
  }

  lemma RunSnoc(codec: Codec, s: State, offset: nat, lines: seq<Line>, line: Line)
    ensures RunFrom(codec, s, offset, lines + [line]) == Step(codec, RunFrom(codec, s, offset, lines), line, offset + |lines| + 1)
  {
    assert (lines + [line])[..|lines|] == lines;
  }

  lemma RunOne(codec: Codec, s: State, offset: nat, line: Line)
    ensures RunFrom(codec, s, offset, [line]) == Step(codec, s, line, offset + 1)
  {
  }

  // ----- what acceptance means -----

  predicate IsChainLine(line: Line) {
    line.Record? && IsChained(line.entry)
  }

  predicate IsLegacyLine(line: Line) {
    line.Record? && !IsChained(line.entry)
  }

  /** The chained entries of the log, in order. */
  function ChainedEntries(lines: seq<Line>): (es: seq<Entry>)
    ensures AllChained(es)
  {
    if lines == [] then []
    else
      var n := |lines| - 1;
      ChainedEntries(lines[..n]) + if IsChainLine(lines[n]) then [lines[n].entry] else []
  }

  function LegacyCount(lines: seq<Line>): nat {
    if lines == [] then 0
    else
      var n := |lines| - 1;
      LegacyCount(lines[..n]) + if IsLegacyLine(lines[n]) then 1 else 0
  }

  predicate Readable(lines: seq<Line>) {
    forall l | l in lines :: l.Blank? || l.Record?
  }

  /** e directly continues p: next number, and p's hash as previous hash. */
  predicate Follows(p: Entry, e: Entry)
    requires IsChained(p) && IsChained(e)
  {
    && IntegerValue(p["sequence"]).Some?
    && Continues(Link(IntegerValue(p["sequence"]).value, p["entry_hash"]), e)
  }

  predicate AllChained(es: seq<Entry>) {
    forall k :: 0 <= k < |es| ==> IsChained(es[k])
  }

  predicate WellLinked(codec: Codec, es: seq<Entry>, k: nat)
    requires k < |es| && AllChained(es)
  {
    SelfConsistent(codec, es[k]) && (IsStart(es[k]) || (k > 0 && Follows(es[k - 1], es[k])))
  }

  /** Every entry matches its own hash and either starts a segment or continues the one before it. */
  ghost predicate Linked(codec: Codec, es: seq<Entry>) {
    && AllChained(es)
    && forall k :: 0 <= k < |es| ==> WellLinked(codec, es, k)
  }

  ghost predicate Accepted(codec: Codec, lines: seq<Line>) {
    Verify(codec, lines).Running?
  }

  ghost predicate IsBoundary(lines: seq<Line>, number: nat) {
    && 1 <= number <= |lines|
    && IsChainLine(lines[number - 1])
    && IsStart(lines[number - 1].entry)
    && ChainedEntries(lines[..number - 1]) != []
  }

  ghost predicate Ascending(ns: seq<nat>) {
    forall i, j :: 0 <= i < j < |ns| ==> ns[i] < ns[j]
  }

  /** s holds exactly the counts, the last link and the boundaries of `lines`. */
  ghost predicate Tallies(s: State, lines: seq<Line>) {
    var es := ChainedEntries(lines);
    && s.Running?
    && s.checked == |es|
    && s.legacy == LegacyCount(lines)
    && s.prev == (if es == [] then None else LinkOf(es[|es| - 1]))
    && (es != [] ==> s.prev.Some?)
    && (forall n :: n in s.boundaries <==> IsBoundary(lines, n))
    && Ascending(s.boundaries)
  }

  /** The pass in declarative terms: verify_chain accepts exactly the logs whose lines are all
      readable and whose chained entries are linked, and then reports exactly their number, the
      number of legacy lines, and the line of every segment start that has a chained entry before it. */
  lemma {:induction false} VerifyMeaning(codec: Codec, lines: seq<Line>)
    ensures Accepted(codec, lines) <==> Readable(lines) && Linked(codec, ChainedEntries(lines))
    ensures Accepted(codec, lines) ==> Tallies(Verify(codec, lines), lines)
  {
    if lines != [] {
      var n := |lines| - 1;
      VerifyMeaning(codec, lines[..n]);
      ReadableSnoc(lines);
      if Accepted(codec, lines[..n]) {
        VerifyMeaningStep(codec, lines);
      } else {
        var es, fs := ChainedEntries(lines[..n]), ChainedEntries(lines);
        if Linked(codec, fs) {
          LinkedPrefix(codec, fs, |es|);
          assert fs[..|es|] == es;
        }
      }
    }
  }

  function LinkOf(e: Entry): Option<Link>
    requires IsChained(e)
  {
    match IntegerValue(e["sequence"])
    case Some(n) => Some(Link(n, e["entry_hash"]))
    case None => None
  }

  lemma ReadableSnoc(lines: seq<Line>)
    requires lines != []
    ensures Readable(lines) <==> Readable(lines[..|lines| - 1]) && (lines[|lines| - 1].Blank? || lines[|lines| - 1].Record?)
  {
  }

  lemma LinkedPrefix(codec: Codec, es: seq<Entry>, n: nat)
    requires Linked(codec, es) && n <= |es|
    ensures Linked(codec, es[..n])
  {
    forall k | 0 <= k < n
      ensures WellLinked(codec, es[..n], k)
    {
      assert WellLinked(codec, es, k);
    }
  }

  lemma LinkedSnoc(codec: Codec, es: seq<Entry>, e: Entry)
    requires Linked(codec, es) && IsChained(e)
    ensures Linked(codec, es + [e]) <==>
      SelfConsistent(codec, e) && (IsStart(e) || (es != [] && Follows(es[|es| - 1], e)))
  {
    var fs := es + [e];
    forall k | 0 <= k < |es|
      ensures WellLinked(codec, fs, k)
    {
      assert WellLinked(codec, es, k);
    }
    assert fs[|es|] == e && (es != [] ==> fs[|es| - 1] == es[|es| - 1]);
    if Linked(codec, fs) {
      assert WellLinked(codec, fs, |es|);
    }
  }

  lemma StepMeaning(codec: Codec, s: State, es: seq<Entry>, e: Entry, number: nat)
    requires s.Running? && IsChained(e) && AllChained(es)
    requires s.prev == if es == [] then None else LinkOf(es[|es| - 1])
    requires es != [] ==> s.prev.Some?
    ensures StepEntry(codec, s, e, number).Running? <==>
      SelfConsistent(codec, e) && (IsStart(e) || (es != [] && Follows(es[|es| - 1], e)))
    ensures var t := StepEntry(codec, s, e, number);
      t.Running? ==> t.prev.Some? && t.prev == LinkOf(e) && t.checked == s.checked + 1 && t.legacy == s.legacy
  {
  }

  lemma VerifyMeaningStep(codec: Codec, lines: seq<Line>)
    requires lines != []
    requires var pre := lines[..|lines| - 1];
      Readable(pre) && Linked(codec, ChainedEntries(pre)) && Tallies(Verify(codec, pre), pre)
    ensures Accepted(codec, lines) <==> Readable(lines) && Linked(codec, ChainedEntries(lines))
    ensures Accepted(codec, lines) ==> Tallies(Verify(codec, lines), lines)
  {
    var n := |lines| - 1;
    var last, es := lines[n], ChainedEntries(lines[..n]);
    ReadableSnoc(lines);
    CountsSnoc(lines);
    if IsChainLine(last) {
      ChainLineMeaning(codec, Verify(codec, lines[..n]), es, last.entry, n + 1);
    }
    if Accepted(codec, lines) {
      BoundariesStep(codec, lines);
    }
  }

  lemma CountsSnoc(lines: seq<Line>)
    requires lines != []
    ensures var n := |lines| - 1;
      && ChainedEntries(lines) == (if IsChainLine(lines[n]) then ChainedEntries(lines[..n]) + [lines[n].entry] else ChainedEntries(lines[..n]))
      && LegacyCount(lines) == LegacyCount(lines[..n]) + if IsLegacyLine(lines[n]) then 1 else 0
  {
  }

  lemma ChainLineMeaning(codec: Codec, s: State, es: seq<Entry>, e: Entry, number: nat)
    requires s.Running? && IsChained(e) && Linked(codec, es)
    requires s.prev == if es == [] then None else LinkOf(es[|es| - 1])
    requires es != [] ==> s.prev.Some?
    ensures StepEntry(codec, s, e, number).Running? <==> Linked(codec, es + [e])
    ensures var t := StepEntry(codec, s, e, number);
      t.Running? ==> t.prev.Some? && t.prev == LinkOf(e) && t.checked == s.checked + 1 && t.legacy == s.legacy
  {
    LinkedSnoc(codec, es, e);
    StepMeaning(codec, s, es, e, number);
  }

  lemma BoundariesStep(codec: Codec, lines: seq<Line>)
    requires lines != []
    requires Tallies(Verify(codec, lines[..|lines| - 1]), lines[..|lines| - 1])
    requires Accepted(codec, lines)
    ensures var s := Verify(codec, lines);
      (forall n :: n in s.boundaries <==> IsBoundary(lines, n)) && Ascending(s.boundaries)
  {
    var n := |lines| - 1;
    var before := Verify(codec, lines[..n]).boundaries;
    var s := Verify(codec, lines);
    forall m: nat
      ensures IsBoundary(lines, m) <==> (IsBoundary(lines[..n], m) || (m == |lines| && IsBoundary(lines, m)))
    {
      if 1 <= m <= n {
        assert lines[..n][..m - 1] == lines[..m - 1];
      }
    }
    assert s.boundaries == if IsBoundary(lines, |lines|) then before + [|lines|] else before;
    forall i | 0 <= i < |before|
      ensures before[i] < |lines|
    {
      assert IsBoundary(lines[..n], before[i]);
    }
  }

  /** A reported first_broken_line is the shortest prefix that is not accepted. */
  lemma {:induction false} FirstBrokenLineIsFirst(codec: Codec, lines: seq<Line>)
    requires !Accepted(codec, lines)
    ensures var s := Verify(codec, lines);
      && 1 <= s.line <= |lines|
      && Accepted(codec, lines[..s.line - 1])
      && !Accepted(codec, lines[..s.line])
  {
    var n := |lines| - 1;
    if Accepted(codec, lines[..n]) {
      assert lines[..n + 1] == lines;
    } else {
      FirstBrokenLineIsFirst(codec, lines[..n]);
      var k := Verify(codec, lines).line;
      assert lines[..n][..k - 1] == lines[..k - 1];
      assert lines[..n][..k] == lines[..k];
    }
  }

  // ----- the report -----

  /** All lines can be read and the chained entries are linked. */
  ghost predicate Good(codec: Codec, lines: seq<Line>) {
    Readable(lines) && Linked(codec, ChainedEntries(lines))
  }

  /** Line k ends the shortest prefix that is not good. */
  ghost predicate FirstBad(codec: Codec, lines: seq<Line>, k: nat) {
    1 <= k <= |lines| && Good(codec, lines[..k - 1]) && !Good(codec, lines[..k])
  }

  /** The counts and boundaries of the report are those of `lines`. */
  ghost predicate Counts(r: Report, lines: seq<Line>) {
    && r.entriesChecked == |ChainedEntries(lines)|
    && r.legacyEntries == LegacyCount(lines)
    && (forall n :: n in r.segmentBoundaries <==> IsBoundary(lines, n))
    && Ascending(r.segmentBoundaries)
  }

  /** What is wrong with the first bad line: it is no JSON, it does not match its own hash, or it is out of place. */
  function FaultOf(codec: Codec, line: Line): Fault {
    if line == NotJson then InvalidJson
    else if line.Record? && IsChained(line.entry) && !SelfConsistent(codec, line.entry) then HashMismatch
    else BrokenLink
  }

  /** The verdict of the report: ok exactly if the lines are good, else the first bad line; none exactly if that
      line is JSON but no object. */
  ghost predicate Verdict(codec: Codec, lines: seq<Line>, report: Option<Report>) {
    match report
    case None => exists k :: FirstBad(codec, lines, k) && lines[k - 1] == NotAnObject
    case Some(r) =>
      if Good(codec, lines) then r.ok && r.firstBrokenLine == None && r.detail == None
      else
        && !r.ok && r.firstBrokenLine.Some? && FirstBad(codec, lines, r.firstBrokenLine.value)
        && lines[r.firstBrokenLine.value - 1] != NotAnObject
        && r.detail == Some(FaultOf(codec, lines[r.firstBrokenLine.value - 1]))
  }

  /** The lines that the report's counts are about. */
  function CountedLines(lines: seq<Line>, r: Report): seq<Line> {
    match r.firstBrokenLine
    case Some(k) => if 1 <= k <= |lines| then lines[..k - 1] else lines
    case None => lines
  }

  lemma GoodPrefix(codec: Codec, lines: seq<Line>, n: nat)
    requires Good(codec, lines) && n <= |lines|
    ensures Good(codec, lines[..n])
  {
    VerifyMeaning(codec, lines);
    VerifyMeaning(codec, lines[..n]);
    if !Verify(codec, lines[..n]).Running? {
      AbsorbingFrom(codec, lines, n);
    }
  }

  lemma FirstBadIsOne(codec: Codec, lines: seq<Line>, j: nat, k: nat)
    requires FirstBad(codec, lines, j) && FirstBad(codec, lines, k)
    ensures j == k
  {
    if j < k {
      assert lines[..k - 1][..j] == lines[..j];
      GoodPrefix(codec, lines[..k - 1], j);
    } else if k < j {
      assert lines[..j - 1][..k] == lines[..k];
      GoodPrefix(codec, lines[..j - 1], k);
    }
  }

  lemma ReportIsRight(codec: Codec, lines: seq<Line>)
    ensures var report := ReportOf(Verify(codec, lines));
      && Verdict(codec, lines, report)
      && (report.Some? ==> Counts(report.value, CountedLines(lines, report.value)))
      && (report.Some? ==> forall k :: FirstBad(codec, lines, k) ==> lines[k - 1] != NotAnObject)
  {
    VerifyMeaning(codec, lines);
    if Accepted(codec, lines) {
      forall k: nat
        ensures !FirstBad(codec, lines, k)
      {
        if 1 <= k <= |lines| {
          GoodPrefix(codec, lines, k);
        }
      }
    } else {
      FirstBrokenLineIsFirst(codec, lines);
      var k := Verify(codec, lines).line;
      VerifyMeaning(codec, lines[..k - 1]);
      VerifyMeaning(codec, lines[..k]);
      PassStep(codec, lines, k - 1);
      AbsorbingFrom(codec, lines, k);
      StoppedBy(codec, Verify(codec, lines[..k - 1]), lines[k - 1], k);
      assert FirstBad(codec, lines, k);
      forall j: nat | FirstBad(codec, lines, j)
        ensures j == k
      {
        FirstBadIsOne(codec, lines, j, k);
      }
    }
  }

  /** A report on lines of which k is the first bad one. */
  lemma ReportNames(codec: Codec, lines: seq<Line>, k: nat, report: Option<Report>)
    requires FirstBad(codec, lines, k) && Verdict(codec, lines, report)
    ensures report.None? ==> lines[k - 1] == NotAnObject
    ensures report.Some? ==>
      !report.value.ok && report.value.firstBrokenLine == Some(k) && report.value.detail == Some(FaultOf(codec, lines[k - 1]))
  {
    if Good(codec, lines) {
      GoodPrefix(codec, lines, k);
    }
    forall j: nat | FirstBad(codec, lines, j)
      ensures j == k
    {
      FirstBadIsOne(codec, lines, j, k);
    }
  }

  /** The line that stops the pass leaves the counts as they were. */
  lemma StoppedBy(codec: Codec, s: State, line: Line, number: nat)
    requires s.Running? && !Step(codec, s, line, number).Running?
    ensures var t := Step(codec, s, line, number);
      if line == NotAnObject then t == Crashed(number)
      else
        && t.Failed? && t.line == number && t.fault == FaultOf(codec, line)
        && t.checked == s.checked && t.legacy == s.legacy && t.boundaries == s.boundaries
  {
  }
}
