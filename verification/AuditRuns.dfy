/** Whole runs of an audit log that starts in a folder without one: appends, each of which may rotate
    and sweep, and removals of files from outside. Beside the folder the run keeps the log as plain
    lists of entries; the main results tie the files, byte by byte, to these lists. */
module AuditRuns {
  import opened Json
  import opened TextLines
  import opened ChainVerifier
  import opened AuditStore
  import opened AuditAppend

  // ----- the log as a list -----

  function AnchorAfter(es: seq<Entry>): Anchor
    requires AllChained(es)
  {
    if es == [] then GENESIS_ANCHOR
    else Anchor(|es|, match es[|es| - 1]["entry_hash"] case Str(h) => h case _ => "")
  }

  /** Appending to the list: number and hash of its last entry, no file involved. */
  function Push(codec: Codec, es: seq<Entry>, entry: Entry): (r: seq<Entry>)
    requires AllChained(es)
    ensures AllChained(r)
  {
    es + [Chain(codec, entry, AnchorAfter(es))]
  }

  /** Entries numbered from 1 and linked from genesis on. */
  ghost predicate Segment(codec: Codec, es: seq<Entry>) {
    && AllChained(es)
    && forall k :: 0 <= k < |es| ==>
      && es[k]["sequence"] == Int(k + 1)
      && es[k]["prev_hash"] == Str(AnchorAfter(es[..k]).hash)
      && SelfConsistent(codec, es[k])
  }

  /** The bytes of a file that holds these entries. */
  function Spelled(codec: Codec, es: seq<Entry>): string {
    if es == [] then ""
    else Spelled(codec, es[..|es| - 1]) + codec.dump(es[|es| - 1]) + "\n"
  }

  lemma PushKeepsSegment(codec: Codec, es: seq<Entry>, entry: Entry)
    requires Segment(codec, es) && "entry_hash" !in entry
    ensures Segment(codec, Push(codec, es, entry))
  {
    var fs := Push(codec, es, entry);
    ChainFields(codec, entry, AnchorAfter(es));
    forall k | 0 <= k < |fs|
      ensures fs[k]["sequence"] == Int(k + 1)
      ensures fs[k]["prev_hash"] == Str(AnchorAfter(fs[..k]).hash)
      ensures SelfConsistent(codec, fs[k])
    {
      if k < |es| {
        assert fs[..k] == es[..k];
      } else {
        assert fs[..k] == es;
      }
    }
  }

  lemma SegmentPrefix(codec: Codec, es: seq<Entry>, n: nat)
    requires Segment(codec, es) && n <= |es|
    ensures Segment(codec, es[..n])
  {
    forall k | 0 <= k < n
      ensures es[..n][..k] == es[..k]
    {
    }
  }

  /** The file of a segment: newline-terminated, verified with every entry counted and no boundary. */
  lemma {:induction false} SegmentVerifies(codec: Codec, es: seq<Entry>)
    requires codec.Valid() && Segment(codec, es)
    ensures NewlineTerminated(Spelled(codec, es))
    ensures Verify(codec, LogLines(codec, Spelled(codec, es))) ==
      Running(if es == [] then None else Some(Link(|es|, Str(AnchorAfter(es).hash))), |es|, 0, [])
  {
    if es == [] {
      assert LogLines(codec, "") == [];
    } else {
      var n := |es| - 1;
      var before, last := es[..n], es[n];
      SegmentPrefix(codec, es, n);
      SegmentVerifies(codec, before);
      LinesOfExtended(codec, Spelled(codec, before), last);
      var lines := LogLines(codec, Spelled(codec, before));
      RunComposes(codec, FRESH, 0, lines, [Record(last)]);
      RunOne(codec, Verify(codec, lines), |lines|, Record(last));
      SegmentStep(codec, es, |lines| + 1);
    }
  }

  lemma SegmentStep(codec: Codec, es: seq<Entry>, number: nat)
    requires Segment(codec, es) && es != []
    ensures var n := |es| - 1;
      StepEntry(codec, Running(if n == 0 then None else Some(Link(n, Str(AnchorAfter(es[..n]).hash))), n, 0, []), es[n], number)
      == Running(Some(Link(n + 1, Str(AnchorAfter(es).hash))), n + 1, 0, [])
  {
  }

  /** The state re-derived from the last line of the file is that of the list. */
  lemma StateFromBytes(codec: Codec, es: seq<Entry>)
    requires codec.Valid() && Segment(codec, es)
    ensures CurrentState(codec, Some(Spelled(codec, es))) == AnchorAfter(es)
  {
    if es != [] {
      var n := |es| - 1;
      SegmentPrefix(codec, es, n);
      SegmentVerifies(codec, es[..n]);
      assert SelfConsistent(codec, es[n]);
      AnchorOfDumped(codec, Spelled(codec, es[..n]), es[n], n + 1, codec.hash(Body(es[n])));
    }
  }

  // ----- the world of a run -----

  /** What became of a file that was the log once. Swept(k): removed by the rotation that opened segment k. */
  datatype Fate = OnDisk | Swept(segment: nat) | RemovedOutside

  datatype Archive = Archive(name: string, entries: seq<Entry>, fate: Fate)

  datatype World = World(dir: Directory, closed: seq<Archive>, live: seq<Entry>, history: seq<Entry>)

  datatype Event = DoAppend(entry: Entry, reading: Reading) | RemoveFile(name: string)

  function MarkSwept(closed: seq<Archive>, names: seq<string>, segment: nat): (r: seq<Archive>)
    ensures |r| == |closed|
    ensures forall i :: 0 <= i < |r| ==>
      r[i] == if closed[i].fate.OnDisk? && closed[i].name in names then closed[i].(fate := Swept(segment)) else closed[i]
  {
    if closed == [] then []
    else
      var a := closed[|closed| - 1];
      MarkSwept(closed[..|closed| - 1], names, segment)
      + [if a.fate.OnDisk? && a.name in names then a.(fate := Swept(segment)) else a]
  }

  function MarkRemoved(closed: seq<Archive>, name: string): (r: seq<Archive>)
    ensures |r| == |closed|
    ensures forall i :: 0 <= i < |r| ==>
      r[i] == if closed[i].fate.OnDisk? && closed[i].name == name then closed[i].(fate := RemovedOutside) else closed[i]
  {
    if closed == [] then []
    else
      var a := closed[|closed| - 1];
      MarkRemoved(closed[..|closed| - 1], name)
      + [if a.fate.OnDisk? && a.name == name then a.(fate := RemovedOutside) else a]
  }

  /** The lists after an append; of the folder's side only the rotation's names are used. */
  function ListsAfter(log: Log, w: World, r: Reading, entry: Entry, a: Appended): World
    requires AllChained(w.live)
  {
    if a.rotation.None? then
      var live := Push(log.codec, w.live, entry);
      World(a.dir, w.closed, live, w.history + live[|w.live|..])
    else
      var rotation := a.rotation.value;
      var closed := MarkSwept(w.closed + [Archive(rotation.name, w.live, OnDisk)], rotation.deleted, |w.closed| + 1);
      var live := Push(log.codec, Push(log.codec, [], Marker(log, r, rotation)), entry);
      World(a.dir, closed, live, w.history + live)
  }

  function Next(log: Log, w: World, event: Event): World
    requires AllChained(w.live)
  {
    match event
    case DoAppend(entry, r) =>
      (match Append(log, w.dir, r, entry)
       case None => w
       case Some(a) => ListsAfter(log, w, r, entry, a))
    case RemoveFile(name) => WorldWithout(log, w, name)
  }

  function WorldWithout(log: Log, w: World, name: string): World {
    if name == log.base then
      World(w.dir - {name}, if w.live == [] then w.closed else w.closed + [Archive(name, w.live, RemovedOutside)], [], w.history)
    else World(w.dir - {name}, MarkRemoved(w.closed, name), w.live, w.history)
  }

  // ----- the invariant -----

  /** The entries of the k-th file that was the log; the last one is the live file. */
  function Nth(w: World, k: nat): seq<Entry>
    requires k <= |w.closed|
  {
    if k < |w.closed| then w.closed[k].entries else w.live
  }

  /** The file starts with a rotation marker that names `name` among the deleted archives. */
  ghost predicate HeadNames(es: seq<Entry>, name: string) {
    && es != [] && "deleted_archives" in es[0]
    && es[0]["deleted_archives"].Array? && Str(name) in es[0]["deleted_archives"].items
  }

  function AllEntries(closed: seq<Archive>): seq<Entry> {
    if closed == [] then []
    else AllEntries(closed[..|closed| - 1]) + closed[|closed| - 1].entries
  }

  ghost predicate LiveOk(log: Log, dir: Directory, live: seq<Entry>) {
    && Segment(log.codec, live)
    && (if live == [] then log.base !in dir else log.base in dir && dir[log.base].content == Spelled(log.codec, live))
  }

  ghost predicate ArchiveOk(log: Log, w: World, i: nat)
    requires i < |w.closed|
  {
    var Archive(name, entries, fate) := w.closed[i];
    && entries != [] && Segment(log.codec, entries)
    && match fate
       case OnDisk => name != log.base && name in w.dir && w.dir[name].content == Spelled(log.codec, entries)
       case Swept(k) => i < k <= |w.closed| && HeadNames(Nth(w, k), name)
       case RemovedOutside => true
  }

  ghost predicate NamesDiffer(closed: seq<Archive>) {
    forall i, j :: 0 <= i < j < |closed| && closed[i].fate.OnDisk? && closed[j].fate.OnDisk? ==> closed[i].name != closed[j].name
  }

  ghost predicate Inv(log: Log, w: World) {
    && LiveOk(log, w.dir, w.live)
    && (forall i :: 0 <= i < |w.closed| ==> ArchiveOk(log, w, i))
    && NamesDiffer(w.closed)
    && w.history == AllEntries(w.closed) + w.live
  }

  // ----- steps keep the invariant -----

  lemma {:induction false} MarkedEntries(a: seq<Archive>, b: seq<Archive>)
    requires |a| == |b| && forall i :: 0 <= i < |a| ==> a[i].entries == b[i].entries
    ensures AllEntries(a) == AllEntries(b)
  {
    if a != [] {
      MarkedEntries(a[..|a| - 1], b[..|b| - 1]);
    }
  }

  lemma EntriesSnoc(closed: seq<Archive>, a: Archive)
    ensures AllEntries(closed + [a]) == AllEntries(closed) + a.entries
  {
  }

  lemma WriteLive(log: Log, dir: Directory, live: seq<Entry>, entry: Entry, mtime: int)
    requires log.codec.Valid() && LiveOk(log, dir, live) && "entry_hash" !in entry
    ensures LiveOk(log, Written(log, dir, entry, mtime), Push(log.codec, live, entry))
    ensures NextEntry(log, dir, entry) == Push(log.codec, live, entry)[|live|]
  {
    PushKeepsSegment(log.codec, live, entry);
    StateFromBytes(log.codec, live);
    var after := Push(log.codec, live, entry);
    assert after[..|after| - 1] == live;
  }

  lemma MarkerFields(log: Log, r: Reading, rotation: Rotation, name: string)
    requires name in rotation.deleted
    ensures "entry_hash" !in Marker(log, r, rotation)
    ensures HeadNames(Push(log.codec, [], Marker(log, r, rotation)), name)
  {
  }

  lemma StayStep(log: Log, w: World, r: Reading, entry: Entry)
    requires log.codec.Valid() && Inv(log, w) && "entry_hash" !in entry
    requires ShouldRotate(log, w.dir, r).Stay?
    ensures Inv(log, Next(log, w, DoAppend(entry, r)))
  {
    var v := Next(log, w, DoAppend(entry, r));
    WriteLive(log, w.dir, w.live, entry, r.entryMtime);
    StayInv(log, w, v);
  }

  lemma StayHistory(closed: seq<Entry>, before: seq<Entry>, after: seq<Entry>)
    requires before <= after
    ensures (closed + before) + after[|before|..] == closed + after
  {
  }

  lemma StayInv(log: Log, w: World, v: World)
    requires Inv(log, w) && LiveOk(log, v.dir, v.live)
    requires v.closed == w.closed && w.live <= v.live
    requires v.dir - {log.base} == w.dir - {log.base}
    requires v.history == w.history + v.live[|w.live|..]
    ensures Inv(log, v)
  {
    StayHistory(AllEntries(w.closed), w.live, v.live);
    forall i | 0 <= i < |w.closed|
      ensures ArchiveOk(log, v, i)
    {
      assert ArchiveOk(log, w, i);
      SameArchive(log, w, v, i);
    }
  }

  /** An archive stays in order while its file, and the first entry of the live file, stay. */
  lemma SameArchive(log: Log, w: World, v: World, i: nat)
    requires i < |w.closed| && ArchiveOk(log, w, i)
    requires v.closed == w.closed && w.live <= v.live
    requires v.dir - {log.base} == w.dir - {log.base}
    ensures ArchiveOk(log, v, i)
  {
    var a := w.closed[i];
    if a.fate.OnDisk? {
      assert a.name in w.dir - {log.base} && (w.dir - {log.base})[a.name] == w.dir[a.name];
      assert a.name in v.dir - {log.base} && (v.dir - {log.base})[a.name] == v.dir[a.name];
    }
  }

  /** The folder and the list after marker and entry are written to a fresh log. */
  lemma RotateLive(log: Log, d0: Directory, r: Reading, marker: Entry, entry: Entry)
    requires log.codec.Valid() && log.base !in d0 && "entry_hash" !in marker && "entry_hash" !in entry
    ensures var d1 := Written(log, d0, marker, r.markerMtime);
      var live := Push(log.codec, Push(log.codec, [], marker), entry);
      && LiveOk(log, Written(log, d1, entry, r.entryMtime), live)
      && live == [NextEntry(log, d0, marker), NextEntry(log, d1, entry)]
  {
    WriteLive(log, d0, [], marker, r.markerMtime);
    WriteLive(log, Written(log, d0, marker, r.markerMtime), Push(log.codec, [], marker), entry, r.entryMtime);
  }

  /** The archives of w, and the log itself, after a rotation. */
  ghost predicate ClosedBy(w: World, rotation: Rotation, closed: seq<Archive>) {
    closed == MarkSwept(w.closed + [Archive(rotation.name, w.live, OnDisk)], rotation.deleted, |w.closed| + 1)
  }

  lemma {:induction false} RotateArchives(log: Log, w: World, rotation: Rotation, v: World, i: nat)
    requires Inv(log, w) && RotationFrame(log.base, w.dir, rotation, v.dir)
    requires ClosedBy(w, rotation, v.closed)
    requires forall n | n in rotation.deleted :: HeadNames(v.live, n)
    requires i < |v.closed|
    ensures ArchiveOk(log, v, i)
  {
    if i < |w.closed| {
      assert ArchiveOk(log, w, i);
      var a := w.closed[i];
      if a.fate.Swept? {
        SweptStays(log, w, rotation, v, i);
      }
    }
  }

  lemma SweptStays(log: Log, w: World, rotation: Rotation, v: World, i: nat)
    requires ClosedBy(w, rotation, v.closed) && i < |w.closed| && w.closed[i].fate.Swept? && ArchiveOk(log, w, i)
    ensures v.closed[i] == w.closed[i] && ArchiveOk(log, v, i)
  {
    var k := w.closed[i].fate.segment;
    assert k < |w.closed| ==> v.closed[k].entries == w.closed[k].entries;
    assert v.closed[|w.closed|].entries == w.live;
  }

  lemma RotateNames(log: Log, w: World, rotation: Rotation, closed: seq<Archive>)
    requires Inv(log, w) && rotation.name !in w.dir
    requires ClosedBy(w, rotation, closed)
    ensures NamesDiffer(closed)
  {
    forall i, j | 0 <= i < j < |closed| && closed[i].fate.OnDisk? && closed[j].fate.OnDisk?
      ensures closed[i].name != closed[j].name
    {
      assert ArchiveOk(log, w, i);
    }
  }

  /** What a rotating append leaves, spelled out. */
  function RotatedWorld(log: Log, w: World, r: Reading, entry: Entry): World
    requires log.base in w.dir
  {
    var rotation := RotationOf(log, w.dir, r);
    var marker := Marker(log, r, rotation);
    var d1 := Written(log, Rotated(log, w.dir, r), marker, r.markerMtime);
    var live := Push(log.codec, Push(log.codec, [], marker), entry);
    World(Written(log, d1, entry, r.entryMtime),
          MarkSwept(w.closed + [Archive(rotation.name, w.live, OnDisk)], rotation.deleted, |w.closed| + 1),
          live, w.history + live)
  }

  lemma NextRotates(log: Log, w: World, r: Reading, entry: Entry)
    requires AllChained(w.live) && ShouldRotate(log, w.dir, r).Rotate?
    ensures log.base in w.dir && Next(log, w, DoAppend(entry, r)) == RotatedWorld(log, w, r, entry)
  {
  }

  lemma RotateStep(log: Log, w: World, r: Reading, entry: Entry)
    requires log.codec.Valid() && Inv(log, w) && "entry_hash" !in entry
    requires ShouldRotate(log, w.dir, r).Rotate?
    ensures Inv(log, Next(log, w, DoAppend(entry, r)))
  {
    NextRotates(log, w, r, entry);
    RotatedWorldInv(log, w, r, entry);
  }

  lemma RotatedWorldInv(log: Log, w: World, r: Reading, entry: Entry)
    requires log.codec.Valid() && Inv(log, w) && "entry_hash" !in entry && log.base in w.dir
    ensures Inv(log, RotatedWorld(log, w, r, entry))
  {
    RotatedThenWritten(log, w.dir, r, entry);
    RotatedLiveOk(log, w, r, entry);
    MarkerHeads(log, w, r, entry);
    RotateInv(log, w, RotationOf(log, w.dir, r), RotatedWorld(log, w, r, entry));
  }

  lemma NoLogAfterRotation(log: Log, dir: Directory, r: Reading)
    requires log.base in dir
    ensures log.base !in Rotated(log, dir, r)
    ensures "entry_hash" !in Marker(log, r, RotationOf(log, dir, r))
  {
    RotatedFrame(log, dir, r);
  }

  lemma RotatedLiveOk(log: Log, w: World, r: Reading, entry: Entry)
    requires log.codec.Valid() && "entry_hash" !in entry && log.base in w.dir
    ensures var v := RotatedWorld(log, w, r, entry); LiveOk(log, v.dir, v.live)
  {
    var marker := Marker(log, r, RotationOf(log, w.dir, r));
    NoLogAfterRotation(log, w.dir, r);
    RotateLive(log, Rotated(log, w.dir, r), r, marker, entry);
  }

  lemma MarkerHeads(log: Log, w: World, r: Reading, entry: Entry)
    requires log.base in w.dir
    ensures forall n | n in RotationOf(log, w.dir, r).deleted :: HeadNames(RotatedWorld(log, w, r, entry).live, n)
  {
    var rotation := RotationOf(log, w.dir, r);
    forall n | n in rotation.deleted
      ensures HeadNames(RotatedWorld(log, w, r, entry).live, n)
    {
      MarkerFields(log, r, rotation, n);
    }
  }

  lemma {:induction false} RotateInv(log: Log, w: World, rotation: Rotation, v: World)
    requires Inv(log, w) && RotationFrame(log.base, w.dir, rotation, v.dir)
    requires ClosedBy(w, rotation, v.closed)
    requires v.history == w.history + v.live && LiveOk(log, v.dir, v.live)
    requires forall n | n in rotation.deleted :: HeadNames(v.live, n)
    ensures Inv(log, v)
  {
    RotateNames(log, w, rotation, v.closed);
    RotateHistory(w, rotation, v);
    forall i | 0 <= i < |v.closed|
      ensures ArchiveOk(log, v, i)
    {
      RotateArchives(log, w, rotation, v, i);
    }
  }

  lemma RotateHistory(w: World, rotation: Rotation, v: World)
    requires w.history == AllEntries(w.closed) + w.live
    requires ClosedBy(w, rotation, v.closed)
    requires v.history == w.history + v.live
    ensures v.history == AllEntries(v.closed) + v.live
  {
    var closed := w.closed + [Archive(rotation.name, w.live, OnDisk)];
    MarkedEntries(v.closed, closed);
    EntriesSnoc(w.closed, Archive(rotation.name, w.live, OnDisk));
  }

  lemma RemoveStep(log: Log, w: World, name: string)
    requires Inv(log, w)
    ensures Inv(log, WorldWithout(log, w, name))
  {
    var v := WorldWithout(log, w, name);
    forall i | 0 <= i < |v.closed|
      ensures ArchiveOk(log, v, i)
    {
      if i < |w.closed| {
        RemoveArchive(log, w, name, i);
      }
    }
    RemoveHistory(log, w, name);
  }

  lemma RemoveHistory(log: Log, w: World, name: string)
    requires w.history == AllEntries(w.closed) + w.live
    ensures var v := WorldWithout(log, w, name); v.history == AllEntries(v.closed) + v.live
  {
    if name != log.base {
      MarkedEntries(MarkRemoved(w.closed, name), w.closed);
    } else if w.live != [] {
      EntriesSnoc(w.closed, Archive(name, w.live, RemovedOutside));
    }
  }

  lemma RemoveArchive(log: Log, w: World, name: string, i: nat)
    requires Inv(log, w) && i < |w.closed|
    ensures ArchiveOk(log, WorldWithout(log, w, name), i)
  {
    var v := WorldWithout(log, w, name);
    assert ArchiveOk(log, w, i);
    var a := w.closed[i];
    assert v.closed[i].entries == a.entries && v.closed[i].name == a.name;
    if a.fate.Swept? {
      assert Nth(v, a.fate.segment) == Nth(w, a.fate.segment);
    }
  }

  // ----- runs -----

  ghost predicate Proper(event: Event) {
    event.DoAppend? ==> "entry_hash" !in event.entry
  }

  function Run(log: Log, dir: Directory, events: seq<Event>): (w: World)
    ensures AllChained(w.live)
  {
    if events == [] then World(dir, [], [], [])
    else
      var w := Next(log, Run(log, dir, events[..|events| - 1]), events[|events| - 1]);
      assert AllChained(w.live);
      w
  }

  lemma {:induction false} RunKeepsInv(log: Log, dir: Directory, events: seq<Event>)
    requires log.codec.Valid() && log.base !in dir
    requires forall i :: 0 <= i < |events| ==> Proper(events[i])
    ensures Inv(log, Run(log, dir, events))
  {
    if events != [] {
      var n := |events| - 1;
      RunKeepsInv(log, dir, events[..n]);
      var w := Run(log, dir, events[..n]);
      match events[n]
      case DoAppend(entry, r) =>
        if ShouldRotate(log, w.dir, r).Stay? {
          StayStep(log, w, r, entry);
        } else if ShouldRotate(log, w.dir, r).Rotate? {
          RotateStep(log, w, r, entry);
        }
      case RemoveFile(name) =>
        RemoveStep(log, w, name);
    }
  }

  /** verify_chain accepts the file `name`, counts `n` entries and sees one segment. */
  ghost predicate VerifiesAs(codec: Codec, content: string, n: nat) {
    ReportOf(Verify(codec, LogLines(codec, content))) == Some(Report(true, n, 0, [], None, None))
  }

  /** Every reachable log verifies: after any run, the live file and every archive that is still there. */
  lemma {:induction false} ReachableLogsVerify(log: Log, dir: Directory, events: seq<Event>)
    requires log.codec.Valid() && log.base !in dir
    requires forall i :: 0 <= i < |events| ==> Proper(events[i])
    ensures var w := Run(log, dir, events);
      && (log.base in w.dir ==> VerifiesAs(log.codec, w.dir[log.base].content, |w.live|))
      && forall i :: 0 <= i < |w.closed| && w.closed[i].fate.OnDisk? ==>
        w.closed[i].name in w.dir && VerifiesAs(log.codec, w.dir[w.closed[i].name].content, |w.closed[i].entries|)
  {
    RunKeepsInv(log, dir, events);
    var w := Run(log, dir, events);
    SegmentVerifies(log.codec, w.live);
    forall i | 0 <= i < |w.closed| && w.closed[i].fate.OnDisk?
      ensures w.closed[i].name in w.dir && VerifiesAs(log.codec, w.dir[w.closed[i].name].content, |w.closed[i].entries|)
    {
      assert ArchiveOk(log, w, i);
      SegmentVerifies(log.codec, w.closed[i].entries);
    }
  }

  /** The number and hash that an append re-derives from the bytes of the file are always those of the list. */
  lemma {:induction false} RederivedStateIsListState(log: Log, dir: Directory, events: seq<Event>)
    requires log.codec.Valid() && log.base !in dir
    requires forall i :: 0 <= i < |events| ==> Proper(events[i])
    ensures var w := Run(log, dir, events);
      CurrentState(log.codec, ContentOf(w.dir, log.base)) == AnchorAfter(w.live)
  {
    RunKeepsInv(log, dir, events);
    StateFromBytes(log.codec, Run(log, dir, events).live);
  }

  /** Rotation conserves history: all files that were ever the log, in order, spell everything ever
      written. Each is still there byte by byte (ArchiveOk: under its own name), or was swept by a later
      rotation whose marker - the first entry of the file it opened - names it, or was removed from outside. */
  lemma {:induction false} HistoryConserved(log: Log, dir: Directory, events: seq<Event>)
    requires log.codec.Valid() && log.base !in dir
    requires forall i :: 0 <= i < |events| ==> Proper(events[i])
    ensures var w := Run(log, dir, events);
      && w.history == AllEntries(w.closed) + w.live
      && LiveOk(log, w.dir, w.live) && NamesDiffer(w.closed)
      && forall i :: 0 <= i < |w.closed| ==>
        ArchiveOk(log, w, i) && (w.closed[i].fate.RemovedOutside? ==> RemoveFile(w.closed[i].name) in events)
  {
    RunKeepsInv(log, dir, events);
    var w := Run(log, dir, events);
    forall i | 0 <= i < |w.closed| && w.closed[i].fate.RemovedOutside?
      ensures RemoveFile(w.closed[i].name) in events
    {
      RemovedOnlyOutside(log, dir, events, i);
    }
  }

  lemma {:induction false} RemovedOnlyOutside(log: Log, dir: Directory, events: seq<Event>, i: nat)
    requires var w := Run(log, dir, events); i < |w.closed| && w.closed[i].fate.RemovedOutside?
    ensures RemoveFile(Run(log, dir, events).closed[i].name) in events
  {
    if events != [] {
      var n := |events| - 1;
      var v, w := Run(log, dir, events[..n]), Run(log, dir, events);
      RemovedByStep(log, v, events[n], i);
      if i < |v.closed| && v.closed[i].fate.RemovedOutside? && v.closed[i].name == w.closed[i].name {
        RemovedOnlyOutside(log, dir, events[..n], i);
        assert forall e :: e in events[..n] ==> e in events;
      }
    }
  }

  lemma RemovedByStep(log: Log, v: World, event: Event, i: nat)
    requires AllChained(v.live)
    requires var w := Next(log, v, event); i < |w.closed| && w.closed[i].fate.RemovedOutside?
    ensures var w := Next(log, v, event);
      || event == RemoveFile(w.closed[i].name)
      || (i < |v.closed| && v.closed[i].fate.RemovedOutside? && v.closed[i].name == w.closed[i].name)
  {
    match event
    case DoAppend(entry, r) =>
      var a := Append(log, v.dir, r, entry);
      if a.Some? {
        AppendRemovesNone(log, v, r, entry, a.value, i);
      }
    case RemoveFile(_) =>
  }

  lemma AppendRemovesNone(log: Log, v: World, r: Reading, entry: Entry, a: Appended, i: nat)
    requires AllChained(v.live)
    requires var w := ListsAfter(log, v, r, entry, a); i < |w.closed| && w.closed[i].fate.RemovedOutside?
    ensures i < |v.closed| && v.closed[i] == ListsAfter(log, v, r, entry, a).closed[i]
  {
  }

  /** What append returns is what the list gained. */
  lemma WrittenEntriesJoinHistory(log: Log, w: World, r: Reading, entry: Entry)
    requires log.codec.Valid() && Inv(log, w) && "entry_hash" !in entry
    requires Append(log, w.dir, r, entry).Some?
    ensures Next(log, w, DoAppend(entry, r)).history == w.history + Append(log, w.dir, r, entry).value.written
  {
    if ShouldRotate(log, w.dir, r).Stay? {
      WriteLive(log, w.dir, w.live, entry, r.entryMtime);
    } else {
      NextRotates(log, w, r, entry);
      RotatedHistory(log, w, r, entry);
    }
  }

  lemma RotatedHistory(log: Log, w: World, r: Reading, entry: Entry)
    requires log.codec.Valid() && "entry_hash" !in entry && log.base in w.dir
    ensures var rotation := RotationOf(log, w.dir, r);
      var d0 := Rotated(log, w.dir, r);
      var marker := Marker(log, r, rotation);
      var d1 := Written(log, d0, marker, r.markerMtime);
      RotatedWorld(log, w, r, entry).history == w.history + [NextEntry(log, d0, marker), NextEntry(log, d1, entry)]
  {
    NoLogAfterRotation(log, w.dir, r);
    RotateLive(log, Rotated(log, w.dir, r), r, Marker(log, r, RotationOf(log, w.dir, r)), entry);
  }
}
