/** Runs that start with a log already there: written before entries were chained, joined from several
    segments, or left by an earlier process. */
module AuditAnyLog {
  import opened Json
  import opened ChainVerifier
  import opened AuditStore
  import opened AuditAppend
  import opened AuditRuns

  ghost predicate HealthyLive(log: Log, dir: Directory) {
    log.base in dir ==> Healthy(log.codec, dir[log.base].content)
  }

  /** Every other file is healthy or was there, unchanged, at the start. */
  ghost predicate OthersKept(log: Log, start: Directory, dir: Directory) {
    forall f :: f in dir && f != log.base ==> (f in start && dir[f] == start[f]) || Healthy(log.codec, dir[f].content)
  }

  lemma EmptyIsHealthy(codec: Codec)
    ensures Healthy(codec, "")
  {
    assert LogLines(codec, "") == [];
  }

  lemma WriteStaysHealthy(log: Log, dir: Directory, entry: Entry, mtime: int)
    requires log.codec.Valid() && HealthyLive(log, dir) && "entry_hash" !in entry
    ensures HealthyLive(log, Written(log, dir, entry, mtime))
  {
    var content := if log.base in dir then dir[log.base].content else "";
    EmptyIsHealthy(log.codec);
    AppendKeepsAccepted(log.codec, content, entry);
  }

  lemma StayHealthy(log: Log, start: Directory, dir: Directory, r: Reading, entry: Entry)
    requires log.codec.Valid() && HealthyLive(log, dir) && OthersKept(log, start, dir) && "entry_hash" !in entry
    ensures var d := Written(log, dir, entry, r.entryMtime); HealthyLive(log, d) && OthersKept(log, start, d)
  {
    WriteStaysHealthy(log, dir, entry, r.entryMtime);
  }

  lemma RotateHealthy(log: Log, start: Directory, dir: Directory, r: Reading, entry: Entry)
    requires log.codec.Valid() && HealthyLive(log, dir) && OthersKept(log, start, dir) && "entry_hash" !in entry
    requires log.base in dir
    ensures var d1 := Written(log, Rotated(log, dir, r), Marker(log, r, RotationOf(log, dir, r)), r.markerMtime);
      var d := Written(log, d1, entry, r.entryMtime);
      HealthyLive(log, d) && OthersKept(log, start, d)
  {
    var rotation := RotationOf(log, dir, r);
    var d1 := Written(log, Rotated(log, dir, r), Marker(log, r, rotation), r.markerMtime);
    NoLogAfterRotation(log, dir, r);
    WriteStaysHealthy(log, Rotated(log, dir, r), Marker(log, r, rotation), r.markerMtime);
    WriteStaysHealthy(log, d1, entry, r.entryMtime);
    RotatedThenWritten(log, dir, r, entry);
    FrameKeeps(log, start, dir, rotation, Written(log, d1, entry, r.entryMtime));
  }

  lemma FrameKeeps(log: Log, start: Directory, dir: Directory, rotation: Rotation, after: Directory)
    requires RotationFrame(log.base, dir, rotation, after) && HealthyLive(log, dir) && OthersKept(log, start, dir)
    ensures OthersKept(log, start, after)
  {
  }

  lemma StepStaysHealthy(log: Log, start: Directory, w: World, event: Event)
    requires log.codec.Valid() && AllChained(w.live) && Proper(event)
    requires HealthyLive(log, w.dir) && OthersKept(log, start, w.dir)
    ensures var d := Next(log, w, event).dir; HealthyLive(log, d) && OthersKept(log, start, d)
  {
    match event
    case DoAppend(entry, r) =>
      var decision := ShouldRotate(log, w.dir, r);
      if decision.Stay? {
        AppendStays(log, w.dir, r, entry);
        StayHealthy(log, start, w.dir, r, entry);
      } else if decision.Rotate? {
        NextRotates(log, w, r, entry);
        RotateHealthy(log, start, w.dir, r, entry);
      }
    case RemoveFile(_) =>
  }

  /** Whatever accepted log a run starts from - legacy entries, several segments, blank lines - as long as its last
      line is not half chained: after any run of appends, rotations, sweeps and outside removals the live file is
      accepted, and so is every other file in the folder that was not there, unchanged, at the start. */
  lemma {:induction false} RunStaysHealthy(log: Log, dir: Directory, events: seq<Event>)
    requires log.codec.Valid() && HealthyLive(log, dir)
    requires forall i :: 0 <= i < |events| ==> Proper(events[i])
    ensures HealthyLive(log, Run(log, dir, events).dir) && OthersKept(log, dir, Run(log, dir, events).dir)
  {
    if events != [] {
      var n := |events| - 1;
      RunStaysHealthy(log, dir, events[..n]);
      StepStaysHealthy(log, dir, Run(log, dir, events[..n]), events[n]);
    }
  }
}
