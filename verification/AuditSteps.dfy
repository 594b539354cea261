/** When an append rotates, what its sweep deletes and what its marker says, in terms of the first entry, the folder,
    the clock and the configuration - beside the loops in which the code finds it out. */
module AuditSteps {
  import opened Json
  import opened Sequences
  import opened TextLines
  import opened ChainVerifier
  import opened AuditStore

  // ----- when to rotate -----

  /** Line k is the first that is not blank. */
  ghost predicate FirstText(lines: seq<string>, k: nat) {
    k < |lines| && Strip(lines[k]) != "" && forall i :: 0 <= i < k ==> Strip(lines[i]) == ""
  }

  /** The first entry carries a timestamp with a time zone, that many days before now or earlier. */
  ghost predicate DaysOld(codec: Codec, lines: seq<string>, k: nat, now: int, days: int) {
    && FirstText(lines, k)
    && var parsed := codec.parse(Strip(lines[k]));
    && parsed.Object? && "timestamp" in parsed.entry
    && var v := parsed.entry["timestamp"];
    && v.Str? && v.text != ""
    && codec.isoTime(v.text).Aware? && now - codec.isoTime(v.text).seconds >= days * 86_400
  }

  /** A value other than a text that counts as true in Python. */
  ghost predicate TrueButNoText(v: Value) {
    || v == Bool(true)
    || (v.Int? && v.number != 0)
    || (v.Real? && v.float.mantissa != 0)
    || (v.Array? && v.items != [])
    || (v.Object? && v.fields != map[])
  }

  /** The first entry is no object, or has a timestamp that is no text or lacks a time zone. */
  ghost predicate Misstarted(codec: Codec, lines: seq<string>, k: nat) {
    && FirstText(lines, k)
    && var parsed := codec.parse(Strip(lines[k]));
    && !parsed.Malformed?
    && (parsed.Object? ==>
      && "timestamp" in parsed.entry
      && var v := parsed.entry["timestamp"];
      || TrueButNoText(v)
      || (v.Str? && v.text != "" && codec.isoTime(v.text).Naive?))
  }

  function LinesOfLog(log: Log, dir: Directory): seq<string> {
    if log.base in dir then SplitLines(dir[log.base].content) else []
  }

  /** The log is there, retention is on, and the size limit is not reached. */
  ghost predicate SmallLog(log: Log, dir: Directory, r: Reading) {
    && r.retention.enabled && log.base in dir
    && (r.retention.maxBytes == 0 || |dir[log.base].content| < r.retention.maxBytes)
  }

  lemma {:induction false} NoText(codec: Codec, lines: seq<string>)
    requires forall k :: !FirstText(lines, k)
    ensures FirstTimestamp(codec, lines).Unknown?
    decreases |lines|
  {
    if lines != [] {
      assert !FirstText(lines, 0);
      forall k: nat
        ensures !FirstText(lines[1..], k)
      {
        FirstTextLater(lines, k);
      }
      NoText(codec, lines[1..]);
    }
  }

  lemma FirstTextLater(lines: seq<string>, k: nat)
    requires lines != [] && Strip(lines[0]) == ""
    ensures FirstText(lines, k + 1) <==> FirstText(lines[1..], k)
  {
    assert forall i :: 0 <= i < |lines| - 1 ==> lines[1..][i] == lines[i + 1];
    if FirstText(lines[1..], k) {
      forall i | 0 <= i < k + 1
        ensures Strip(lines[i]) == ""
      {
        assert i > 0 ==> lines[i] == lines[1..][i - 1];
      }
    }
  }

  lemma {:induction false} TimestampOfFirst(codec: Codec, lines: seq<string>, k: nat, now: int, days: int)
    requires FirstText(lines, k)
    ensures var started := FirstTimestamp(codec, lines);
      && (started.Raises? <==> Misstarted(codec, lines, k))
      && (started.At? && now - started.seconds >= days * 86_400 <==> DaysOld(codec, lines, k, now, days))
    decreases |lines|
  {
    if k > 0 {
      FirstTextLater(lines, k - 1);
      TimestampOfFirst(codec, lines[1..], k - 1, now, days);
    }
  }

  lemma OneFirstText(lines: seq<string>, j: nat, k: nat)
    requires FirstText(lines, j) && FirstText(lines, k)
    ensures j == k
  {
  }

  lemma TimestampMeans(codec: Codec, lines: seq<string>, now: int, days: int)
    ensures var started := FirstTimestamp(codec, lines);
      && (started.Raises? <==> exists k :: Misstarted(codec, lines, k))
      && (started.At? && now - started.seconds >= days * 86_400 <==> exists k :: DaysOld(codec, lines, k, now, days))
  {
    if exists k :: FirstText(lines, k) {
      var k :| FirstText(lines, k);
      TimestampOfFirst(codec, lines, k, now, days);
      forall j | FirstText(lines, j)
        ensures j == k
      {
        OneFirstText(lines, j, k);
      }
    } else {
      NoText(codec, lines);
    }
  }

  /** An append rotates exactly if retention is on and the log is there, and it has reached the size limit or its
      first entry is as many days old as the interval. It fails, before anything is written, exactly if the age
      has to be looked at and the first entry has none that can be computed. */
  lemma RotatesExactly(log: Log, dir: Directory, r: Reading, entry: Entry)
    ensures var a, cfg, lines := Append(log, dir, r, entry), r.retention, LinesOfLog(log, dir);
      && (a.None? <==> SmallLog(log, dir, r) && cfg.rotateIntervalDays != 0 && exists k :: Misstarted(log.codec, lines, k))
      && (a.Some? && a.value.rotation.Some? <==>
        && cfg.enabled && log.base in dir
        && (|| (cfg.maxBytes != 0 && |dir[log.base].content| >= cfg.maxBytes)
            || (cfg.rotateIntervalDays != 0 && exists k :: DaysOld(log.codec, lines, k, r.now, cfg.rotateIntervalDays))))
  {
    AppendOutcome(log, dir, r, entry);
    DecisionOutcome(log, dir, r, LinesOfLog(log, dir));
    TimestampMeans(log.codec, LinesOfLog(log, dir), r.now, r.retention.rotateIntervalDays);
  }

  lemma DecisionOutcome(log: Log, dir: Directory, r: Reading, lines: seq<string>)
    requires lines == LinesOfLog(log, dir)
    ensures var d, cfg, started := ShouldRotate(log, dir, r), r.retention, FirstTimestamp(log.codec, lines);
      && (d.Raise? <==> SmallLog(log, dir, r) && cfg.rotateIntervalDays != 0 && started.Raises?)
      && (d.Rotate? <==>
        && cfg.enabled && log.base in dir
        && (|| (cfg.maxBytes != 0 && |dir[log.base].content| >= cfg.maxBytes)
            || (cfg.rotateIntervalDays != 0 && started.At? && r.now - started.seconds >= cfg.rotateIntervalDays * 86_400)))
  {
  }

  lemma AppendOutcome(log: Log, dir: Directory, r: Reading, entry: Entry)
    ensures var a, d := Append(log, dir, r, entry), ShouldRotate(log, dir, r);
      (a.None? <==> d.Raise?) && (a.Some? && a.value.rotation.Some? <==> d.Rotate?)
  {
  }

  // ----- the archive name -----

  /** The number that digits spell. */
  function NumberOf(digits: string): int {
    if digits == "" then 0 else 10 * NumberOf(digits[..|digits| - 1]) + (digits[|digits| - 1] as int - '0' as int)
  }

  predicate IsDigit(c: char) {
    '0' <= c <= '9'
  }

  /** Suffixes are decimal numbers without leading zeros. */
  lemma {:induction false} DecimalSpells(n: nat)
    ensures var s := Decimal(n);
      NumberOf(s) == n && (forall i :: 0 <= i < |s| ==> IsDigit(s[i])) && (n > 0 ==> s[0] != '0')
  {
    DigitSpells(n % 10);
    if n >= 10 {
      DecimalSpells(n / 10);
      assert Decimal(n)[..|Decimal(n)| - 1] == Decimal(n / 10);
    } else {
      assert Decimal(n)[..0] == "";
    }
  }

  lemma DigitSpells(d: int)
    requires 0 <= d < 10
    ensures IsDigit(Digit(d)) && Digit(d) as int - '0' as int == d && (d > 0 ==> Digit(d) != '0')
  {
  }

  /** The archive is named after the log and the time, with the first number that makes the name free if the plain
      name is taken. */
  ghost predicate NamedAside(log: Log, dir: Directory, stamp: string, name: string) {
    var plain := log.base + "." + stamp;
    if plain !in dir then name == plain
    else exists k :: FirstSuffix(dir, plain, k, name)
  }

  ghost predicate FirstSuffix(dir: Directory, plain: string, k: nat, name: string) {
    && k > 0 && name == plain + "-" + Decimal(k) && name !in dir
    && forall i :: 0 < i < k ==> plain + "-" + Decimal(i) in dir
  }

  lemma ArchiveIsNamed(log: Log, dir: Directory, stamp: string)
    ensures NamedAside(log, dir, stamp, ArchiveName(log.base, stamp, FirstFree(dir.Keys, log.base, stamp, 0)))
  {
    var plain := log.base + "." + stamp;
    var k := FirstFree(dir.Keys, log.base, stamp, 0);
    assert plain == plain + "" == ArchiveName(log.base, stamp, 0);
    forall i | 0 < i
      ensures ArchiveName(log.base, stamp, i) == plain + "-" + Decimal(i)
    {
      Regroup(plain, "-", Decimal(i));
    }
    if plain in dir {
      assert FirstSuffix(dir, plain, k, ArchiveName(log.base, stamp, k));
    }
  }

  // ----- the sweep -----

  /** When f was last modified, seen after the log was renamed. */
  function ModifiedAt(log: Log, dir: Directory, name: string, f: string): int
    requires log.base in dir && (f == name || f in dir)
  {
    if f == name then dir[log.base].mtime else dir[f].mtime
  }

  /** What a rotation does to the folder. The log is put aside; of the files named after it, itself now included, the
      sweep deletes exactly those that were modified more than the configured days before, if any days are
      configured. Every other file stays as it is. */
  lemma SweepExactly(log: Log, dir: Directory, r: Reading, entry: Entry)
    requires Lists(r.list) && Append(log, dir, r, entry).Some? && Append(log, dir, r, entry).value.rotation.Some?
    ensures var a := Append(log, dir, r, entry).value;
      var Rotation(name, deleted) := a.rotation.value;
      && log.base in dir && name !in dir && NamedAside(log, dir, r.stamp, name)
      && (forall f :: f in deleted <==>
           && r.retention.retentionDays != 0
           && (f in dir || f == name) && log.base + "." <= f
           && ModifiedAt(log, dir, name, f) < r.sweepNow - r.retention.retentionDays * 86_400)
      && (forall f :: f in a.dir <==> f == log.base || ((f in dir || f == name) && f !in deleted))
      && (forall f :: f in a.dir && f != log.base ==> a.dir[f] == if f == name then dir[log.base] else dir[f])
  {
    AppendOutcome(log, dir, r, entry);
    var Rotation(name, deleted) := RotationOf(log, dir, r);
    ArchiveIsNamed(log, dir, r.stamp);
    DeletedExactly(log, dir, r, name);
    RotatedFolder(log, dir, r, entry);
    assert !(log.base + "." <= log.base);
  }

  lemma DeletedExactly(log: Log, dir: Directory, r: Reading, name: string)
    requires Lists(r.list) && log.base in dir && log.base + "." <= name
    ensures forall f :: f in SweptNames(log, Renamed(dir, log.base, name), r) <==>
      && r.retention.retentionDays != 0
      && (f in dir || f == name) && log.base + "." <= f
      && ModifiedAt(log, dir, name, f) < r.sweepNow - r.retention.retentionDays * 86_400
  {
    SweptExactly(log, Renamed(dir, log.base, name), r);
    assert !(log.base + "." <= log.base);
  }

  lemma RotatedFolder(log: Log, dir: Directory, r: Reading, entry: Entry)
    requires ShouldRotate(log, dir, r).Rotate?
    ensures var a, rotation := Append(log, dir, r, entry).value, RotationOf(log, dir, r);
      && a.rotation == Some(rotation) && rotation.name !in dir
      && (forall f :: f in a.dir <==> f == log.base || ((f in dir || f == rotation.name) && f !in rotation.deleted))
      && (forall f :: f in a.dir && f != log.base ==> a.dir[f] == if f == rotation.name then dir[log.base] else dir[f])
  {
  }

  /** Deleted names are listed once each, in the order of the directory listing. */
  ghost predicate InOrderOf(part: seq<string>, all: seq<string>) {
    forall i, j, p, q :: 0 <= i < j < |part| && 0 <= p < |all| && 0 <= q < |all| && all[p] == part[i] && all[q] == part[j] ==> p < q
  }

  lemma {:induction false} SweptInOrder(log: Log, dir: Directory, cutoff: int, names: seq<string>)
    requires Distinct(names)
    ensures InOrderOf(ExpiredAmong(log, dir, cutoff, names), names)
    decreases |names|
  {
    if names != [] {
      var n := |names| - 1;
      var part := ExpiredAmong(log, dir, cutoff, names[..n]);
      assert names == names[..n] + [names[n]];
      SweptInOrder(log, dir, cutoff, names[..n]);
      InOrderSnoc(part, names[..n], names[n]);
      ExpiredSnoc(log, dir, cutoff, names[..n], names[n]);
      assert part + [] == part;
    }
  }

  lemma InOrderSnoc(part: seq<string>, all: seq<string>, name: string)
    requires Distinct(all + [name]) && InOrderOf(part, all) && forall f :: f in part ==> f in all
    ensures InOrderOf(part, all + [name]) && InOrderOf(part + [name], all + [name])
  {
    var n := |all|;
    assert (all + [name])[n] == name;
    assert name !in all by {
      forall i | 0 <= i < n
        ensures all[i] != name
      {
        assert (all + [name])[i] == all[i];
      }
    }
  }

  /** The first entry of the new log starts a chain, says when it was written, what the old log is called now, and
      which archives were deleted, one by one in the order in which the folder was listed. */
  lemma MarkerExactly(log: Log, dir: Directory, r: Reading, entry: Entry)
    requires Lists(r.list) && Append(log, dir, r, entry).Some? && Append(log, dir, r, entry).value.rotation.Some?
    ensures var a := Append(log, dir, r, entry).value;
      && |a.written| == 2 && log.base in dir
      && var marker, Rotation(name, deleted) := a.written[0], a.rotation.value;
      && Announces(log, marker, r.markerTime, log.folder + name, deleted)
      && InOrderOf(deleted, r.list(Renamed(dir, log.base, name).Keys))
  {
    AppendOutcome(log, dir, r, entry);
    var rotation := RotationOf(log, dir, r);
    MarkerFields(log, r, rotation);
    NextAnnounces(log, Rotated(log, dir, r), Marker(log, r, rotation), r, rotation);
    var renamed := Renamed(dir, log.base, rotation.name);
    SweptInOrder(log, renamed, Cutoff(r), r.list(renamed.Keys));
    RotatedTwo(log, dir, r, entry);
  }

  lemma RotatedTwo(log: Log, dir: Directory, r: Reading, entry: Entry)
    requires ShouldRotate(log, dir, r).Rotate?
    ensures var a, rotation := Append(log, dir, r, entry).value, RotationOf(log, dir, r);
      && a.rotation == Some(rotation) && |a.written| == 2
      && a.written[0] == NextEntry(log, Rotated(log, dir, r), Marker(log, r, rotation))
      && log.base !in Rotated(log, dir, r)
  {
  }

  /** A marker of that time which starts a chain, for the old log at the path `from`. */
  ghost predicate Announces(log: Log, marker: Entry, time: string, from: string, deleted: seq<string>) {
    && marker.Keys == {"action", "user", "role", "timestamp", "rotated_from", "deleted_archives", "sequence", "prev_hash", "entry_hash"}
    && marker["action"] == Str("audit_log_rotation") && marker["user"] == marker["role"] == Str("system")
    && marker["timestamp"] == Str(time) && marker["rotated_from"] == Str(from)
    && marker["deleted_archives"].Array? && |marker["deleted_archives"].items| == |deleted|
    && (forall i :: 0 <= i < |deleted| ==> marker["deleted_archives"].items[i] == Str(deleted[i]))
    && marker["sequence"] == Int(1) && marker["prev_hash"] == Str(GENESIS) && SelfConsistent(log.codec, marker)
  }

  /** Before it is chained. */
  ghost predicate HasMarkerFields(log: Log, r: Reading, rotation: Rotation, marker: Entry) {
    && marker.Keys == {"action", "user", "role", "timestamp", "rotated_from", "deleted_archives"}
    && marker["action"] == Str("audit_log_rotation") && marker["user"] == marker["role"] == Str("system")
    && marker["timestamp"] == Str(r.markerTime) && marker["rotated_from"] == Str(log.folder + rotation.name)
    && marker["deleted_archives"] == Array(TextValues(rotation.deleted))
  }

  lemma MarkerFields(log: Log, r: Reading, rotation: Rotation)
    ensures HasMarkerFields(log, r, rotation, Marker(log, r, rotation))
  {
  }

  /** `chained` is e as the first entry of a chain. */
  ghost predicate StartsChain(codec: Codec, e: Entry, chained: Entry) {
    && chained.Keys == e.Keys + {"sequence", "prev_hash", "entry_hash"}
    && (forall k :: k in e ==> chained[k] == e[k])
    && chained["sequence"] == Int(1) && chained["prev_hash"] == Str(GENESIS) && SelfConsistent(codec, chained)
  }

  lemma FirstEntry(log: Log, dir: Directory, e: Entry)
    requires log.base !in dir && "sequence" !in e && "prev_hash" !in e && "entry_hash" !in e
    ensures StartsChain(log.codec, e, NextEntry(log, dir, e))
  {
    assert Body(NextEntry(log, dir, e)) == Hashed(e, GENESIS_ANCHOR);
  }

  lemma ChainedAnnounces(log: Log, marker: Entry, chained: Entry, r: Reading, rotation: Rotation)
    requires HasMarkerFields(log, r, rotation, marker) && StartsChain(log.codec, marker, chained)
    ensures Announces(log, chained, r.markerTime, log.folder + rotation.name, rotation.deleted)
  {
  }

  lemma NextAnnounces(log: Log, dir: Directory, marker: Entry, r: Reading, rotation: Rotation)
    requires log.base !in dir && HasMarkerFields(log, r, rotation, marker)
    ensures Announces(log, NextEntry(log, dir, marker), r.markerTime, log.folder + rotation.name, rotation.deleted)
  {
    FirstEntry(log, dir, marker);
    ChainedAnnounces(log, marker, NextEntry(log, dir, marker), r, rotation);
  }
}
