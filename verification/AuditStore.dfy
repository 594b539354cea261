/** The files of an audit log: appending, rotating aside and sweeping expired archives,
    as functions on the directory. */
module AuditStore {
  import opened Json
  import opened Sequences
  import opened TextLines
  import opened ChainVerifier

  datatype File = File(content: string, mtime: int)

  type Directory = map<string, File>

  /** The `retention` section of config/audit.yaml; 0 stands for a missing number. */
  datatype Retention = Retention(enabled: bool, maxBytes: int, rotateIntervalDays: int, retentionDays: int)

  const DAY := 86_400

  /** A log: its folder (as written in paths) and its file name. */
  datatype Log = Log(codec: Codec, folder: string, base: string)

  /** What one append reads from outside: the configuration that its process loaded, the clock at each of its
      readings, the modification times its writes leave, and the order in which os.listdir lists the folder. */
  datatype Reading = Reading(
    retention: Retention, now: int, stamp: string, sweepNow: int, markerTime: string,
    markerMtime: int, entryMtime: int, list: set<string> -> seq<string>)

  ghost predicate Lists(list: set<string> -> seq<string>) {
    forall names :: Distinct(list(names)) && forall f :: f in list(names) <==> f in names
  }

  // ----- the state of the chain, from the last line -----

  /** The sequence number and hash that the next entry continues from. */
  datatype Anchor = Anchor(sequence: int, hash: string)

  const GENESIS_ANCHOR := Anchor(0, GENESIS)

  /** int(v), None where Python raises. */
  function ToInt(codec: Codec, v: Value): Option<int> {
    match v
    case Real(f) => Some(Truncated(f))
    case Str(s) => codec.intOfText(s)
    case _ => IntegerValue(v)
  }

  function ToText(codec: Codec, v: Value): string {
    if v.Str? then v.text else codec.textOf(v)
  }

  function AnchorOfLine(codec: Codec, line: string): Anchor {
    match codec.parse(line)
    case Object(e) =>
      if "sequence" in e && "entry_hash" in e && ToInt(codec, e["sequence"]).Some?
      then Anchor(ToInt(codec, e["sequence"]).value, ToText(codec, e["entry_hash"]))
      else GENESIS_ANCHOR
    case _ => GENESIS_ANCHOR
  }

  function CurrentState(codec: Codec, content: Option<string>): Anchor {
    if content.None? then GENESIS_ANCHOR
    else match LastLine(content.value, '\n')
      case None => GENESIS_ANCHOR
      case Some(line) => AnchorOfLine(codec, line)
  }

  /** What is hashed when an entry is chained. */
  function Hashed(entry: Entry, at: Anchor): Entry {
    entry["sequence" := Int(at.sequence + 1)]["prev_hash" := Str(at.hash)]
  }

  /** The caller's entry with its chain fields. */
  function Chain(codec: Codec, entry: Entry, at: Anchor): (e: Entry)
    ensures IsChained(e)
  {
    Hashed(entry, at)["entry_hash" := Str(codec.hash(Hashed(entry, at)))]
  }

  function ContentOf(dir: Directory, name: string): Option<string> {
    if name in dir then Some(dir[name].content) else None
  }

  function Extended(codec: Codec, content: Option<string>, e: Entry): string {
    (if content.None? then "" else content.value) + codec.dump(e) + "\n"
  }

  /** The next entry of the log, chained to the last line of its file. */
  function NextEntry(log: Log, dir: Directory, entry: Entry): Entry {
    Chain(log.codec, entry, CurrentState(log.codec, ContentOf(dir, log.base)))
  }

  function Written(log: Log, dir: Directory, entry: Entry, mtime: int): Directory {
    dir[log.base := File(Extended(log.codec, ContentOf(dir, log.base), NextEntry(log, dir, entry)), mtime)]
  }

  // ----- when to rotate -----

  predicate Falsy(v: Value) {
    match v
    case Null => true
    case Bool(b) => !b
    case Int(n) => n == 0
    case Real(f) => f.mantissa == 0
    case Str(s) => s == ""
    case Array(items) => items == []
    case Object(fields) => |fields| == 0
  }

  datatype Started = Unknown | At(seconds: int) | Raises

  /** The timestamp of the first entry. Text that is no JSON or no timestamp is caught; a line that is
      no object, a timestamp that is no text, and one without a time zone raise in the caller. */
  function FirstTimestamp(codec: Codec, lines: seq<string>): Started {
    if lines == [] then Unknown
    else
      var text := Strip(lines[0]);
      if text == "" then FirstTimestamp(codec, lines[1..])
      else match codec.parse(text)
        case Malformed => Unknown
        case NonObject => Raises
        case Object(e) =>
          if "timestamp" !in e || Falsy(e["timestamp"]) then Unknown
          else if !e["timestamp"].Str? then Raises
          else match codec.isoTime(e["timestamp"].text)
            case Unreadable => Unknown
            case Naive => Raises
            case Aware(t) => At(t)
  }

  datatype Decision = Stay | Rotate | Raise

  function ShouldRotate(log: Log, dir: Directory, r: Reading): Decision {
    var cfg := r.retention;
    if !cfg.enabled || log.base !in dir then Stay
    else if cfg.maxBytes != 0 && |dir[log.base].content| >= cfg.maxBytes then Rotate
    else if cfg.rotateIntervalDays != 0 then
      match FirstTimestamp(log.codec, SplitLines(dir[log.base].content))
      case Unknown => Stay
      case Raises => Raise
      case At(t) => if r.now - t >= cfg.rotateIntervalDays * DAY then Rotate else Stay
    else Stay
  }

  // ----- archive names -----

  function Digit(d: int): char
    requires 0 <= d < 10
  {
    "0123456789"[d]
  }

  function Decimal(n: nat): (s: string)
    ensures s != []
  {
    if n < 10 then [Digit(n)] else Decimal(n / 10) + [Digit(n % 10)]
  }

  lemma {:induction false} DecimalInjective(m: nat, n: nat)
    requires Decimal(m) == Decimal(n)
    ensures m == n
    decreases m
  {
    var s, t := Decimal(m), Decimal(n);
    assert s[|s| - 1] == Digit(m % 10) && t[|t| - 1] == Digit(n % 10);
    if m >= 10 && n >= 10 {
      assert Decimal(m / 10) == s[..|s| - 1] && Decimal(n / 10) == t[..|t| - 1];
      DecimalInjective(m / 10, n / 10);
    }
  }

  /** The n-th name tried for an archive. */
  function ArchiveName(base: string, stamp: string, n: nat): string {
    base + "." + stamp + if n == 0 then "" else "-" + Decimal(n)
  }

  lemma ArchiveNameInjective(base: string, stamp: string, m: nat, n: nat)
    requires ArchiveName(base, stamp, m) == ArchiveName(base, stamp, n)
    ensures m == n
  {
    var k := |base + "." + stamp|;
    assert ArchiveName(base, stamp, m)[k..] == if m == 0 then "" else "-" + Decimal(m);
    assert ArchiveName(base, stamp, n)[k..] == if n == 0 then "" else "-" + Decimal(n);
    if m > 0 && n > 0 {
      assert ("-" + Decimal(m))[1..] == Decimal(m);
      assert ("-" + Decimal(n))[1..] == Decimal(n);
      DecimalInjective(m, n);
    }
  }

  function NamesTried(base: string, stamp: string, n: nat): set<string> {
    set i | 0 <= i < n :: ArchiveName(base, stamp, i)
  }

  lemma {:induction false} NamesTriedSize(base: string, stamp: string, n: nat)
    ensures |NamesTried(base, stamp, n)| == n
  {
    if n > 0 {
      NamesTriedSize(base, stamp, n - 1);
      NameIsNew(base, stamp, n - 1);
      assert NamesTried(base, stamp, n) == NamesTried(base, stamp, n - 1) + {ArchiveName(base, stamp, n - 1)};
    }
  }

  lemma NameIsNew(base: string, stamp: string, n: nat)
    ensures ArchiveName(base, stamp, n) !in NamesTried(base, stamp, n)
  {
    if ArchiveName(base, stamp, n) in NamesTried(base, stamp, n) {
      var i: nat :| i < n && ArchiveName(base, stamp, i) == ArchiveName(base, stamp, n);
      ArchiveNameInjective(base, stamp, i, n);
    }
  }

  lemma {:induction false} SubsetSize<T>(a: set<T>, b: set<T>)
    requires a <= b
    ensures |a| <= |b|
  {
    assert b == a + (b - a);
  }

  /** A folder with finitely many files cannot hold all the names. */
  lemma {:induction false} NamesRunOut(names: set<string>, base: string, stamp: string, n: nat)
    requires forall i :: 0 <= i < n ==> ArchiveName(base, stamp, i) in names
    ensures n <= |names|
  {
    NamesTriedSize(base, stamp, n);
    SubsetSize(NamesTried(base, stamp, n), names);
  }

  /** The first suffix from n on whose name is free. */
  function FirstFree(names: set<string>, base: string, stamp: string, n: nat): (k: nat)
    requires forall i :: 0 <= i < n ==> ArchiveName(base, stamp, i) in names
    ensures ArchiveName(base, stamp, k) !in names
    ensures forall i :: 0 <= i < k ==> ArchiveName(base, stamp, i) in names
    decreases |names| - n
  {
    if ArchiveName(base, stamp, n) !in names then n
    else
      NamesRunOut(names, base, stamp, n + 1);
      FirstFree(names, base, stamp, n + 1)
  }

  // ----- rotation and retention -----

  predicate Expired(log: Log, dir: Directory, cutoff: int, name: string) {
    name in dir && name != log.base && log.base + "." <= name && dir[name].mtime < cutoff
  }

  /** The expired among `names`, in order. */
  function ExpiredAmong(log: Log, dir: Directory, cutoff: int, names: seq<string>): (r: seq<string>)
    ensures forall n :: n in r <==> n in names && Expired(log, dir, cutoff, n)
  {
    if names == [] then []
    else
      var k := |names| - 1;
      assert names == names[..k] + [names[k]];
      ExpiredAmong(log, dir, cutoff, names[..k]) + if Expired(log, dir, cutoff, names[k]) then [names[k]] else []
  }

  lemma ExpiredSnoc(log: Log, dir: Directory, cutoff: int, names: seq<string>, name: string)
    ensures ExpiredAmong(log, dir, cutoff, names + [name]) ==
      ExpiredAmong(log, dir, cutoff, names) + if Expired(log, dir, cutoff, name) then [name] else []
  {
    assert (names + [name])[..|names|] == names;
  }

  function Cutoff(r: Reading): int {
    r.sweepNow - r.retention.retentionDays * DAY
  }

  /** The file names that a sweep removes, in the order of the listing. */
  function SweptNames(log: Log, dir: Directory, r: Reading): seq<string> {
    if r.retention.retentionDays == 0 then []
    else ExpiredAmong(log, dir, Cutoff(r), r.list(dir.Keys))
  }

  lemma SweptExactly(log: Log, dir: Directory, r: Reading)
    requires Lists(r.list)
    ensures forall f :: f in SweptNames(log, dir, r) <==>
      && r.retention.retentionDays != 0 && f in dir && f != log.base && log.base + "." <= f
      && dir[f].mtime < r.sweepNow - r.retention.retentionDays * 86_400
  {
  }

  datatype Rotation = Rotation(name: string, deleted: seq<string>)

  /** The file renamed, nothing else changed. */
  function Renamed(dir: Directory, source: string, target: string): Directory
    requires source in dir
  {
    (dir - {source})[target := dir[source]]
  }

  function Marker(log: Log, r: Reading, rotation: Rotation): Entry {
    map["action" := Str("audit_log_rotation"),
        "user" := Str("system"),
        "role" := Str("system"),
        "timestamp" := Str(r.markerTime),
        "rotated_from" := Str(log.folder + rotation.name),
        "deleted_archives" := Array(TextValues(rotation.deleted))]
  }

  function TextValues(names: seq<string>): (vs: seq<Value>)
    ensures forall n :: n in names ==> Str(n) in vs
    ensures |vs| == |names| && forall i :: 0 <= i < |names| ==> vs[i] == Str(names[i])
  {
    if names == [] then []
    else
      var k := |names| - 1;
      assert names == names[..k] + [names[k]];
      TextValues(names[..k]) + [Str(names[k])]
  }

  function RotationOf(log: Log, dir: Directory, r: Reading): Rotation
    requires log.base in dir
  {
    var name := ArchiveName(log.base, r.stamp, FirstFree(dir.Keys, log.base, r.stamp, 0));
    Rotation(name, SweptNames(log, Renamed(dir, log.base, name), r))
  }

  /** The folder after a rotation, before its marker is written. */
  function Rotated(log: Log, dir: Directory, r: Reading): Directory
    requires log.base in dir
  {
    var rotation := RotationOf(log, dir, r);
    Renamed(dir, log.base, rotation.name) - ToSet(rotation.deleted)
  }

  /** The outcome of one append; None when reading the first timestamp raises. */
  datatype Appended = Appended(dir: Directory, written: seq<Entry>, rotation: Option<Rotation>)

  function Append(log: Log, dir: Directory, r: Reading, entry: Entry): Option<Appended> {
    match ShouldRotate(log, dir, r)
    case Raise => None
    case Stay => Some(Appended(Written(log, dir, entry, r.entryMtime), [NextEntry(log, dir, entry)], None))
    case Rotate =>
      var rotation := RotationOf(log, dir, r);
      var marker := Marker(log, r, rotation);
      var d0 := Rotated(log, dir, r);
      var d1 := Written(log, d0, marker, r.markerMtime);
      Some(Appended(Written(log, d1, entry, r.entryMtime),
                    [NextEntry(log, d0, marker), NextEntry(log, d1, entry)], Some(rotation)))
  }

  lemma AppendStays(log: Log, dir: Directory, r: Reading, entry: Entry)
    requires ShouldRotate(log, dir, r).Stay?
    ensures Append(log, dir, r, entry) == Some(Appended(Written(log, dir, entry, r.entryMtime), [NextEntry(log, dir, entry)], None))
  {
  }

  lemma AppendRotates(log: Log, dir: Directory, r: Reading, entry: Entry, rotation: Rotation, d1: Directory)
    requires ShouldRotate(log, dir, r).Rotate? && rotation == RotationOf(log, dir, r)
    requires d1 == Written(log, Rotated(log, dir, r), Marker(log, r, rotation), r.markerMtime)
    ensures Append(log, dir, r, entry) ==
      Some(Appended(Written(log, d1, entry, r.entryMtime),
                    [NextEntry(log, Rotated(log, dir, r), Marker(log, r, rotation)), NextEntry(log, d1, entry)], Some(rotation)))
  {
  }

  /** What a rotation does to the folder: the log moves to a name that was free, files that are
      named after the log and expired may go, everything else stays as it is. */
  ghost predicate RotationFrame(base: string, before: Directory, rotation: Rotation, after: Directory) {
    var Rotation(name, deleted) := rotation;
    && base in before && name !in before && name != base
    && (forall f :: f in deleted ==> f != base && f !in after && (f in before || f == name))
    && (name !in deleted ==> name in after && after[name] == before[base])
    && (forall f :: f in before && f != base && f !in deleted ==> f in after && after[f] == before[f])
    && (forall f :: f in after && f != base ==> f in before || f == name)
  }

  lemma RotatedFrame(log: Log, dir: Directory, r: Reading)
    requires log.base in dir
    ensures RotationFrame(log.base, dir, RotationOf(log, dir, r), Rotated(log, dir, r))
    ensures log.base !in Rotated(log, dir, r)
  {
  }

  lemma FrameWithLog(base: string, before: Directory, rotation: Rotation, after: Directory, log: File)
    requires RotationFrame(base, before, rotation, after)
    ensures RotationFrame(base, before, rotation, after[base := log])
  {
  }

  /** Appending touches no other file, except that a rotation puts the old log under a name that
      was free and removes expired archives - each of them named in the marker it writes first. */
  lemma AppendFrame(log: Log, dir: Directory, r: Reading, entry: Entry)
    requires Append(log, dir, r, entry).Some?
    ensures var a := Append(log, dir, r, entry).value;
      && log.base in a.dir
      && (a.rotation.None? ==> a.dir - {log.base} == dir - {log.base})
      && (a.rotation.Some? ==>
        && RotationFrame(log.base, dir, a.rotation.value, a.dir)
        && a.written != [] && "deleted_archives" in a.written[0]
        && a.written[0]["deleted_archives"] == Array(TextValues(a.rotation.value.deleted)))
  {
    if ShouldRotate(log, dir, r).Rotate? {
      RotatedFrame(log, dir, r);
      RotatedThenWritten(log, dir, r, entry);
    }
  }

  lemma RotatedThenWritten(log: Log, dir: Directory, r: Reading, entry: Entry)
    requires log.base in dir
    ensures var rotation := RotationOf(log, dir, r);
      var d1 := Written(log, Rotated(log, dir, r), Marker(log, r, rotation), r.markerMtime);
      RotationFrame(log.base, dir, rotation, Written(log, d1, entry, r.entryMtime))
  {
    RotatedFrame(log, dir, r);
    var rotation := RotationOf(log, dir, r);
    var d0 := Rotated(log, dir, r);
    var d1 := Written(log, d0, Marker(log, r, rotation), r.markerMtime);
    var d2 := Written(log, d1, entry, r.entryMtime);
    FrameWithLog(log.base, dir, rotation, d0, d1[log.base]);
    FrameWithLog(log.base, dir, rotation, d1, d2[log.base]);
  }
}
