/** Rotated-out history put back together: the archives of a run, in order, followed by the live file. */
module AuditJoined {
  import opened Json
  import opened TextLines
  import opened ChainVerifier
  import opened Concatenation
  import opened AuditStore
  import opened AuditAppend
  import opened AuditRuns

  function Records(es: seq<Entry>): (lines: seq<Line>)
    ensures |lines| == |es| && forall i :: 0 <= i < |es| ==> lines[i] == Record(es[i])
  {
    seq(|es|, i requires 0 <= i < |es| => Record(es[i]))
  }

  /** The entries of the files that were the log, the live one last. */
  function Segments(w: World): seq<seq<Entry>> {
    ClosedSegments(w.closed) + if w.live == [] then [] else [w.live]
  }

  function ClosedSegments(closed: seq<Archive>): (r: seq<seq<Entry>>)
    ensures |r| == |closed| && forall i :: 0 <= i < |r| ==> r[i] == closed[i].entries
  {
    seq(|closed|, i requires 0 <= i < |closed| => closed[i].entries)
  }

  function BytesOf(dir: Directory, name: string): string {
    if name in dir then dir[name].content else ""
  }

  function ArchiveBytes(dir: Directory, closed: seq<Archive>): string {
    if closed == [] then ""
    else ArchiveBytes(dir, closed[..|closed| - 1]) + BytesOf(dir, closed[|closed| - 1].name)
  }

  /** The archives one after the other, then the live file. */
  function JoinedBytes(log: Log, w: World): string {
    ArchiveBytes(w.dir, w.closed) + BytesOf(w.dir, log.base)
  }

  function AllRecords(segments: seq<seq<Entry>>): (r: seq<seq<Line>>)
    ensures |r| == |segments| && forall i :: 0 <= i < |r| ==> r[i] == Records(segments[i])
  {
    seq(|segments|, i requires 0 <= i < |segments| => Records(segments[i]))
  }

  lemma AllRecordsSnoc(segments: seq<seq<Entry>>, es: seq<Entry>)
    ensures AllRecords(segments + [es]) == AllRecords(segments) + [Records(es)]
    ensures JoinAll(AllRecords(segments + [es])) == JoinAll(AllRecords(segments)) + Records(es)
  {
    assert (AllRecords(segments) + [Records(es)])[..|segments|] == AllRecords(segments);
  }

  /** Line by line, the file is its entries. */
  lemma {:induction false} SpelledLines(codec: Codec, es: seq<Entry>)
    requires codec.Valid()
    ensures LogLines(codec, Spelled(codec, es)) == Records(es) && NewlineTerminated(Spelled(codec, es))
  {
    if es == [] {
      assert LogLines(codec, "") == [];
    } else {
      var n := |es| - 1;
      SpelledLines(codec, es[..n]);
      SpelledSnoc(codec, es[..n], es[n]);
      assert es == es[..n] + [es[n]];
    }
  }

  lemma SpelledSnoc(codec: Codec, es: seq<Entry>, e: Entry)
    requires codec.Valid() && LogLines(codec, Spelled(codec, es)) == Records(es) && NewlineTerminated(Spelled(codec, es))
    ensures LogLines(codec, Spelled(codec, es + [e])) == Records(es + [e]) && NewlineTerminated(Spelled(codec, es + [e]))
  {
    assert (es + [e])[..|es|] == es;
    LinesOfExtended(codec, Spelled(codec, es), e);
    RecordsAppend(es, [e]);
    assert Records([e]) == [Record(e)];
  }

  lemma SegmentIsFile(codec: Codec, es: seq<Entry>)
    requires codec.Valid() && Segment(codec, es) && es != []
    ensures SegmentFile(codec, Records(es))
  {
    SpelledLines(codec, es);
    SegmentVerifies(codec, es);
  }

  lemma ArchiveInOrder(log: Log, w: World, i: nat)
    requires Inv(log, w) && i < |w.closed| && w.closed[i].fate.OnDisk?
    ensures Segment(log.codec, w.closed[i].entries) && w.closed[i].entries != []
    ensures BytesOf(w.dir, w.closed[i].name) == Spelled(log.codec, w.closed[i].entries)
  {
    assert ArchiveOk(log, w, i);
  }

  /** The joined archives read back as the files' lines, which are the archived entries. */
  ghost predicate ReadsBack(codec: Codec, dir: Directory, closed: seq<Archive>) {
    && NewlineTerminated(ArchiveBytes(dir, closed))
    && LogLines(codec, ArchiveBytes(dir, closed)) == JoinAll(AllRecords(ClosedSegments(closed)))
    && JoinAll(AllRecords(ClosedSegments(closed))) == Records(AllEntries(closed))
  }

  lemma BytesSnoc(dir: Directory, closed: seq<Archive>, a: Archive)
    ensures ArchiveBytes(dir, closed + [a]) == ArchiveBytes(dir, closed) + BytesOf(dir, a.name)
  {
    assert (closed + [a])[..|closed|] == closed;
  }

  lemma SegmentsSnoc(closed: seq<Archive>, a: Archive)
    ensures JoinAll(AllRecords(ClosedSegments(closed + [a]))) == JoinAll(AllRecords(ClosedSegments(closed))) + Records(a.entries)
  {
    assert ClosedSegments(closed + [a]) == ClosedSegments(closed) + [a.entries];
    AllRecordsSnoc(ClosedSegments(closed), a.entries);
  }

  lemma OneMoreArchive(codec: Codec, dir: Directory, closed: seq<Archive>, a: Archive)
    requires codec.Valid() && ReadsBack(codec, dir, closed)
    requires Segment(codec, a.entries) && BytesOf(dir, a.name) == Spelled(codec, a.entries)
    ensures ReadsBack(codec, dir, closed + [a])
  {
    var before, bytes := ArchiveBytes(dir, closed), Spelled(codec, a.entries);
    BytesSnoc(dir, closed, a);
    SpelledLines(codec, a.entries);
    LinesOfJoinedContent(codec, before, bytes);
    TerminatedAppend(before, bytes);
    SegmentsSnoc(closed, a);
    EntriesSnoc(closed, a);
    RecordsAppend(AllEntries(closed), a.entries);
  }

  lemma {:induction false} ArchiveLines(log: Log, w: World, n: nat)
    requires log.codec.Valid() && Inv(log, w) && n <= |w.closed|
    requires forall i :: 0 <= i < |w.closed| ==> w.closed[i].fate.OnDisk?
    ensures ReadsBack(log.codec, w.dir, w.closed[..n])
  {
    if n == 0 {
      assert LogLines(log.codec, "") == [];
    } else {
      assert w.closed[..n] == w.closed[..n - 1] + [w.closed[n - 1]];
      ArchiveLines(log, w, n - 1);
      ArchiveInOrder(log, w, n - 1);
      OneMoreArchive(log.codec, w.dir, w.closed[..n - 1], w.closed[n - 1]);
    }
  }

  lemma RecordsAppend(a: seq<Entry>, b: seq<Entry>)
    ensures Records(a + b) == Records(a) + Records(b)
  {
  }

  lemma TerminatedAppend(a: string, b: string)
    requires NewlineTerminated(a) && NewlineTerminated(b)
    ensures NewlineTerminated(a + b)
  {
  }

  lemma {:induction false} JoinedLines(log: Log, w: World)
    requires log.codec.Valid() && Inv(log, w)
    requires forall i :: 0 <= i < |w.closed| ==> w.closed[i].fate.OnDisk?
    ensures LogLines(log.codec, JoinedBytes(log, w)) == JoinAll(AllRecords(Segments(w)))
    ensures JoinAll(AllRecords(Segments(w))) == Records(w.history)
  {
    var n := |w.closed|;
    var archives := ArchiveBytes(w.dir, w.closed);
    assert w.closed[..n] == w.closed;
    ArchiveLines(log, w, n);
    if w.live == [] {
      assert archives + "" == archives && ClosedSegments(w.closed) + [] == ClosedSegments(w.closed);
      assert w.history == AllEntries(w.closed);
    } else {
      SpelledLines(log.codec, w.live);
      LinesOfJoinedContent(log.codec, archives, Spelled(log.codec, w.live));
      AllRecordsSnoc(ClosedSegments(w.closed), w.live);
      RecordsAppend(AllEntries(w.closed), w.live);
    }
  }

  lemma {:induction false} SegmentsAreFiles(log: Log, w: World, i: nat)
    requires log.codec.Valid() && Inv(log, w) && i < |Segments(w)|
    requires forall k :: 0 <= k < |w.closed| ==> w.closed[k].fate.OnDisk?
    ensures SegmentFile(log.codec, AllRecords(Segments(w))[i])
  {
    if i < |w.closed| {
      ArchiveInOrder(log, w, i);
    }
    SegmentIsFile(log.codec, Segments(w)[i]);
  }

  /** After any run that left every archive in place, the archives in order followed by the live file read back as
      exactly the history, and verify_chain accepts them: every entry counted, and a boundary at the line
      where each file after the first starts. */
  lemma {:induction false} JoinedHistoryVerifies(log: Log, dir: Directory, events: seq<Event>)
    requires log.codec.Valid() && log.base !in dir
    requires forall i :: 0 <= i < |events| ==> Proper(events[i])
    requires forall i :: 0 <= i < |Run(log, dir, events).closed| ==> Run(log, dir, events).closed[i].fate.OnDisk?
    ensures var w := Run(log, dir, events);
      && LogLines(log.codec, JoinedBytes(log, w)) == Records(w.history)
      && ReportOf(Verify(log.codec, LogLines(log.codec, JoinedBytes(log, w)))) ==
        Some(Report(true, |w.history|, 0, LaterStarts(AllRecords(Segments(w))), None, None))
  {
    var w := Run(log, dir, events);
    RunKeepsInv(log, dir, events);
    JoinedWorld(log, w);
  }

  lemma {:induction false} JoinedWorld(log: Log, w: World)
    requires log.codec.Valid() && Inv(log, w)
    requires forall i :: 0 <= i < |w.closed| ==> w.closed[i].fate.OnDisk?
    ensures LogLines(log.codec, JoinedBytes(log, w)) == Records(w.history)
    ensures ReportOf(Verify(log.codec, LogLines(log.codec, JoinedBytes(log, w)))) ==
      Some(Report(true, |w.history|, 0, LaterStarts(AllRecords(Segments(w))), None, None))
  {
    JoinedLines(log, w);
    forall i | 0 <= i < |Segments(w)|
      ensures SegmentFile(log.codec, AllRecords(Segments(w))[i])
    {
      SegmentsAreFiles(log, w, i);
    }
    JoinedSegmentFiles(log.codec, AllRecords(Segments(w)));
  }

  predicate KeepsFiles(event: Event) {
    event.DoAppend? && event.reading.retention.retentionDays == 0
  }

  /** Archives stay in place as long as nothing sweeps and nothing is removed from outside. */
  lemma {:induction false} NothingRemoved(log: Log, dir: Directory, events: seq<Event>)
    requires forall i :: 0 <= i < |events| ==> KeepsFiles(events[i])
    ensures forall i :: 0 <= i < |Run(log, dir, events).closed| ==> Run(log, dir, events).closed[i].fate.OnDisk?
  {
    if events != [] {
      var n := |events| - 1;
      NothingRemoved(log, dir, events[..n]);
      assert KeepsFiles(events[n]);
      NothingRemovedStep(log, Run(log, dir, events[..n]), events[n]);
    }
  }

  lemma {:induction false} NothingRemovedStep(log: Log, w: World, event: Event)
    requires AllChained(w.live) && KeepsFiles(event)
    requires forall i :: 0 <= i < |w.closed| ==> w.closed[i].fate.OnDisk?
    ensures var v := Next(log, w, event); forall i :: 0 <= i < |v.closed| ==> v.closed[i].fate.OnDisk?
  {
  }
}
