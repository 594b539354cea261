/** Verifying archived files joined back together. */
module Concatenation {
  import opened Json
  import opened TextLines
  import opened ChainVerifier

  /** The line number of the first chained entry, 0 if there is none. */
  function FirstChainLine(lines: seq<Line>): (k: nat)
    ensures k <= |lines|
  {
    if lines == [] then 0
    else
      var n := |lines| - 1;
      NextFirstLine(FirstChainLine(lines[..n]), lines[n], n)
  }

  function NextFirstLine(first: nat, line: Line, n: nat): nat {
    if first > 0 then first else if IsChainLine(line) then n + 1 else 0
  }

  lemma {:induction false} FirstChainLineIsFirst(lines: seq<Line>)
    ensures var k := FirstChainLine(lines);
      && (k == 0 <==> ChainedEntries(lines) == [])
      && (k > 0 ==> IsChainLine(lines[k - 1]) && ChainedEntries(lines[..k - 1]) == [])
  {
    if lines != [] {
      var n := |lines| - 1;
      FirstChainLineIsFirst(lines[..n]);
      var k := FirstChainLine(lines[..n]);
      if k > 0 {
        assert lines[..n][..k - 1] == lines[..k - 1];
      }
    }
  }

  function Shift(ns: seq<nat>, offset: nat): (r: seq<nat>)
    ensures |r| == |ns| && forall i :: 0 <= i < |ns| ==> r[i] == ns[i] + offset
  {
    seq(|ns|, i requires 0 <= i < |ns| => ns[i] + offset)
  }

  /** State s followed by a file whose own verification ends in state f. */
  function Joined(s: State, offset: nat, f: State, firstChainLine: nat): State
    requires s.Running? && f.Running?
  {
    Running(
      if f.prev.Some? then f.prev else s.prev,
      s.checked + f.checked,
      s.legacy + f.legacy,
      s.boundaries + (if s.prev.Some? && firstChainLine > 0 then [offset + firstChainLine] else []) + Shift(f.boundaries, offset))
  }

  /** A file that is accepted on its own is accepted after any accepted log, its first chained
      entry is reported as a boundary, and all other numbers are its own, shifted. */
  lemma {:induction false} RunAfter(codec: Codec, s: State, offset: nat, file: seq<Line>)
    requires s.Running? && Accepted(codec, file)
    ensures RunFrom(codec, s, offset, file) == Joined(s, offset, Verify(codec, file), FirstChainLine(file))
    ensures Unstarted(Verify(codec, file), FirstChainLine(file))
  {
    if file == [] {
      assert Shift([], offset) == [];
      assert s.boundaries + [] + [] == s.boundaries;
    } else {
      var n := |file| - 1;
      RunAfter(codec, s, offset, file[..n]);
      AfterOne(codec, s, offset, Verify(codec, file[..n]), FirstChainLine(file[..n]), RunFrom(codec, s, offset, file[..n]),
               file[n], n, Verify(codec, file), FirstChainLine(file), RunFrom(codec, s, offset, file));
    }
  }

  /** One more line: f, first and r are about the lines before it, the primed ones include it. */
  lemma AfterOne(codec: Codec, s: State, offset: nat, f: State, first: nat, r: State, line: Line, n: nat, f': State, first': nat, r': State)
    requires s.Running? && Unstarted(f, first) && r == Joined(s, offset, f, first)
    requires f' == Step(codec, f, line, n + 1) && f'.Running?
    requires first' == NextFirstLine(first, line, n) && r' == Step(codec, r, line, offset + n + 1)
    ensures r' == Joined(s, offset, f', first') && Unstarted(f', first')
  {
    JoinedStep(codec, s, offset, f, first, line, n);
  }

  /** Before the first chained entry there is no link and no boundary. */
  ghost predicate Unstarted(f: State, first: nat) {
    f.Running? && (first == 0 <==> f.prev.None?) && (first == 0 ==> f.boundaries == [])
  }

  lemma JoinedStep(codec: Codec, s: State, offset: nat, f: State, first: nat, line: Line, n: nat)
    requires s.Running? && Unstarted(f, first) && Step(codec, f, line, n + 1).Running?
    ensures Step(codec, Joined(s, offset, f, first), line, offset + n + 1) ==
      Joined(s, offset, Step(codec, f, line, n + 1), NextFirstLine(first, line, n))
    ensures Unstarted(Step(codec, f, line, n + 1), NextFirstLine(first, line, n))
  {
    if IsChainLine(line) {
      assert Shift(f.boundaries + [n + 1], offset) == Shift(f.boundaries, offset) + [offset + n + 1];
      if first == 0 {
        assert Shift([], offset) == [];
        assert s.boundaries + [] + [] == s.boundaries;
        assert s.boundaries + [offset + n + 1] + [] == s.boundaries + [offset + n + 1];
      }
    }
  }

  /** Two accepted files in a row are accepted, and the report adds up. */
  lemma JoinTwo(codec: Codec, a: seq<Line>, b: seq<Line>)
    requires Accepted(codec, a) && Accepted(codec, b)
    ensures Verify(codec, a + b) == Joined(Verify(codec, a), |a|, Verify(codec, b), FirstChainLine(b))
  {
    RunComposes(codec, FRESH, 0, a, b);
    RunAfter(codec, Verify(codec, a), |a|, b);
  }

  /** Joining the files joins their lines, as long as each ends in a newline. */
  lemma LinesOfJoinedContent(codec: Codec, a: string, b: string)
    requires NewlineTerminated(a)
    ensures LogLines(codec, a + b) == LogLines(codec, a) + LogLines(codec, b)
  {
    SplitLinesAppend(a, b);
  }

  // ----- any number of files -----

  function JoinAll(files: seq<seq<Line>>): seq<Line> {
    if files == [] then [] else JoinAll(files[..|files| - 1]) + files[|files| - 1]
  }

  /** The line where each file after the first starts. */
  function LaterStarts(files: seq<seq<Line>>): seq<nat> {
    if |files| <= 1 then []
    else LaterStarts(files[..|files| - 1]) + [|JoinAll(files[..|files| - 1])| + 1]
  }

  /** A file as AuditChain leaves it: one segment, nothing else. */
  ghost predicate SegmentFile(codec: Codec, lines: seq<Line>) {
    && lines != [] && (forall i :: 0 <= i < |lines| ==> IsChainLine(lines[i]))
    && Accepted(codec, lines) && Verify(codec, lines).boundaries == []
  }

  /** The report on the joined files: every line counts, and the boundaries are exactly the
      lines where the second and later files start. */
  ghost predicate AddsUp(codec: Codec, files: seq<seq<Line>>) {
    var s := Verify(codec, JoinAll(files));
    && s.Running?
    && s.checked == |JoinAll(files)| && s.legacy == 0
    && s.boundaries == LaterStarts(files)
    && (s.prev.Some? <==> files != [])
  }

  /** Joining segment files in order is accepted, and the report adds up. */
  lemma {:induction false} JoinedSegmentFiles(codec: Codec, files: seq<seq<Line>>)
    requires forall i :: 0 <= i < |files| ==> SegmentFile(codec, files[i])
    ensures AddsUp(codec, files)
  {
    if files != [] {
      JoinedSegmentFiles(codec, files[..|files| - 1]);
      AddOne(codec, files[..|files| - 1], files[|files| - 1], files);
    }
  }

  lemma AddOne(codec: Codec, before: seq<seq<Line>>, file: seq<Line>, files: seq<seq<Line>>)
    requires files != [] && before == files[..|files| - 1] && file == files[|files| - 1]
    requires AddsUp(codec, before) && SegmentFile(codec, file)
    ensures AddsUp(codec, files)
  {
    JoinSegmentFile(codec, JoinAll(before), file);
    assert JoinAll(files) == JoinAll(before) + file;
  }

  lemma JoinSegmentFile(codec: Codec, a: seq<Line>, file: seq<Line>)
    requires Accepted(codec, a) && SegmentFile(codec, file)
    ensures var s, t := Verify(codec, a), Verify(codec, a + file);
      && t.Running? && t.prev.Some?
      && t.checked == s.checked + |file| && t.legacy == s.legacy
      && t.boundaries == if s.prev.Some? then s.boundaries + [|a| + 1] else s.boundaries
  {
    AllChainLines(file);
    VerifyMeaning(codec, file);
    JoinTwo(codec, a, file);
    assert Shift([], |a|) == [];
  }

  lemma {:induction false} AllChainLines(lines: seq<Line>)
    requires forall i :: 0 <= i < |lines| ==> IsChainLine(lines[i])
    ensures |ChainedEntries(lines)| == |lines| && LegacyCount(lines) == 0
    ensures lines != [] ==> FirstChainLine(lines) == 1
  {
    if lines != [] {
      AllChainLines(lines[..|lines| - 1]);
    }
  }
}
