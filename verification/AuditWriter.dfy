/** AuditChain as it runs: methods that read and change the folder step by step, each proved
    to do what the functions of AuditStore say. */
module AuditWriter {
  import opened Json
  import opened Sequences
  import opened TextLines
  import opened ChainVerifier
  import opened AuditStore

  class AuditChain {
    const log: Log
    const retention: Retention
    var dir: Directory

    /** The retention section is read once, when the process starts. */
    constructor (log: Log, retention: Retention, dir: Directory)
      ensures this.log == log && this.retention == retention && this.dir == dir
    {
      this.log, this.retention := log, retention;
      this.dir := dir;
    }

    /** _current_state: the last sequence and hash, from the file's own last line. */
    method ReadState() returns (at: Anchor)
      ensures at == CurrentState(log.codec, ContentOf(dir, log.base))
    {
      var last := ReadLastLine(ContentOf(dir, log.base), '\n', 65536);
      if last.None? {
        return GENESIS_ANCHOR;
      }
      var parsed := log.codec.parse(last.value);
      if !parsed.Object? || "sequence" !in parsed.entry || "entry_hash" !in parsed.entry {
        return GENESIS_ANCHOR;
      }
      var sequence := ToInt(log.codec, parsed.entry["sequence"]);
      if sequence.None? {
        return GENESIS_ANCHOR;
      }
      return Anchor(sequence.value, ToText(log.codec, parsed.entry["entry_hash"]));
    }

    /** The chain fields of _write_locked: number, previous hash, and the hash over both and the entry. */
    method AddChainFields(entry: Entry, last: Anchor) returns (chained: Entry)
      ensures chained == Chain(log.codec, entry, last)
      ensures IsChained(chained) && chained["prev_hash"] == Str(last.hash) && IntegerValue(chained["sequence"]) == Some(last.sequence + 1)
      ensures forall k :: k in entry && k !in {"sequence", "prev_hash", "entry_hash"} ==> k in chained && chained[k] == entry[k]
      ensures "entry_hash" !in entry ==> SelfConsistent(log.codec, chained)
    {
      chained := entry["sequence" := Int(last.sequence + 1)]["prev_hash" := Str(last.hash)];
      var entryHash := log.codec.hash(chained);
      var hashed := chained;
      chained := chained["entry_hash" := Str(entryHash)];
      assert "entry_hash" !in entry ==> Body(chained) == hashed;
    }

    /** _write_locked. */
    method WriteLocked(entry: Entry, mtime: int) returns (chained: Entry)
      modifies this
      ensures dir == Written(log, old(dir), entry, mtime)
      ensures chained == NextEntry(log, old(dir), entry)
    {
      var last := ReadState();
      chained := AddChainFields(entry, last);
      var before := if log.base in dir then dir[log.base].content else "";
      dir := dir[log.base := File(before + log.codec.dump(chained) + "\n", mtime)];
    }

    /** _read_first_entry_timestamp, up to what its caller does with the value. */
    method ReadFirstTimestamp() returns (started: Started)
      requires log.base in dir
      ensures started == FirstTimestamp(log.codec, SplitLines(dir[log.base].content))
    {
      var lines := SplitLines(dir[log.base].content);
      for i := 0 to |lines|
        invariant FirstTimestamp(log.codec, lines) == FirstTimestamp(log.codec, lines[i..])
      {
        var text := Strip(lines[i]);
        assert lines[i..][1..] == lines[i + 1..];
        if text == "" {
          continue;
        }
        match log.codec.parse(text)
        case Malformed => return Unknown;
        case NonObject => return Raises;
        case Object(e) =>
          if "timestamp" !in e || Falsy(e["timestamp"]) {
            return Unknown;
          }
          if !e["timestamp"].Str? {
            return Raises;
          }
          match log.codec.isoTime(e["timestamp"].text)
          case Unreadable => return Unknown;
          case Naive => return Raises;
          case Aware(t) => return At(t);
      }
      return Unknown;
    }

    /** _should_rotate_locked. */
    method DecideRotation(r: Reading) returns (decision: Decision)
      requires r.retention == retention
      ensures decision == ShouldRotate(log, dir, r)
      ensures decision.Rotate? || decision.Raise? ==> retention.enabled && log.base in dir
      ensures retention.enabled && log.base in dir && 0 < retention.maxBytes <= |dir[log.base].content| ==> decision.Rotate?
      ensures decision.Raise? ==> retention.rotateIntervalDays != 0 && FirstTimestamp(log.codec, SplitLines(dir[log.base].content)).Raises?
    {
      var cfg := retention;
      if !cfg.enabled || log.base !in dir {
        return Stay;
      }
      if cfg.maxBytes != 0 && |dir[log.base].content| >= cfg.maxBytes {
        return Rotate;
      }
      if cfg.rotateIntervalDays != 0 {
        var started := ReadFirstTimestamp();
        if started.Raises? {
          return Raise;
        }
        if started.At? {
          var age := r.now - started.seconds;
          if age >= cfg.rotateIntervalDays * DAY {
            return Rotate;
          }
        }
      }
      return Stay;
    }

    /** The suffix loop of _maybe_rotate_locked: it ends, with a name no file has. */
    method FreeName(stamp: string) returns (name: string)
      ensures name == ArchiveName(log.base, stamp, FirstFree(dir.Keys, log.base, stamp, 0))
      ensures name !in dir
    {
      name := log.base + "." + stamp;
      var suffix := 0;
      assert name + "" == name;
      while name in dir
        invariant name == ArchiveName(log.base, stamp, suffix)
        invariant forall i :: 0 <= i < suffix ==> ArchiveName(log.base, stamp, i) in dir.Keys
        invariant FirstFree(dir.Keys, log.base, stamp, 0) == FirstFree(dir.Keys, log.base, stamp, suffix)
        decreases |dir.Keys| - suffix
      {
        NamesRunOut(dir.Keys, log.base, stamp, suffix + 1);
        suffix := suffix + 1;
        name := log.base + "." + stamp + "-" + Decimal(suffix);
        Regroup(log.base + "." + stamp, "-", Decimal(suffix));
      }
    }

    /** _sweep_retention_locked. */
    method Sweep(r: Reading) returns (deleted: seq<string>)
      requires Lists(r.list) && r.retention == retention
      modifies this
      ensures deleted == SweptNames(log, old(dir), r)
      ensures forall f :: f in deleted <==>
        && retention.retentionDays != 0 && f in old(dir) && f != log.base && log.base + "." <= f
        && old(dir)[f].mtime < r.sweepNow - retention.retentionDays * 86_400
      ensures dir == old(dir) - ToSet(deleted)
    {
      SweptExactly(log, dir, r);
      if retention.retentionDays == 0 {
        assert ToSet<string>([]) == {} && dir - {} == dir;
        return [];
      }
      var cutoff := r.sweepNow - retention.retentionDays * DAY;
      deleted := SweepAmong(r.list(dir.Keys), cutoff);
    }

    /** The loop over the listing. */
    method SweepAmong(candidates: seq<string>, cutoff: int) returns (deleted: seq<string>)
      requires Distinct(candidates) && forall f :: f in candidates ==> f in dir
      modifies this
      ensures deleted == ExpiredAmong(log, old(dir), cutoff, candidates)
      ensures dir == old(dir) - ToSet(deleted)
    {
      deleted := [];
      assert ToSet(deleted) == {} && dir - {} == dir;
      for i := 0 to |candidates|
        invariant deleted == ExpiredAmong(log, old(dir), cutoff, candidates[..i])
        invariant dir == old(dir) - ToSet(deleted)
      {
        var filename := candidates[i];
        assert candidates[..i + 1] == candidates[..i] + [filename];
        ExpiredSnoc(log, old(dir), cutoff, candidates[..i], filename);
        assert filename !in candidates[..i] && filename in dir && dir[filename] == old(dir)[filename];
        if filename == log.base || !(log.base + "." <= filename) {
          continue;
        }
        var mtime := dir[filename].mtime;
        if mtime < cutoff {
          SweptOneMore(old(dir), deleted, filename);
          dir := dir - {filename};
          deleted := deleted + [filename];
        }
      }
      assert candidates[..|candidates|] == candidates;
    }

    /** _maybe_rotate_locked, once the decision to rotate is made. */
    method RotateAside(r: Reading) returns (rotation: Rotation, marker: Entry)
      requires Lists(r.list) && r.retention == retention && log.base in dir
      modifies this
      ensures rotation == RotationOf(log, old(dir), r)
      ensures marker == NextEntry(log, Rotated(log, old(dir), r), Marker(log, r, rotation))
      ensures dir == Written(log, Rotated(log, old(dir), r), Marker(log, r, rotation), r.markerMtime)
    {
      var name := FreeName(r.stamp);
      dir := (dir - {log.base})[name := dir[log.base]];
      var deleted := Sweep(r);
      rotation := Rotation(name, deleted);
      marker := WriteLocked(Marker(log, r, rotation), r.markerMtime);
    }

    /** append: None when deciding on the rotation raised, with the folder untouched; else the
        finalized entry, the last of all that were written. */
    method Append(entry: Entry, r: Reading) returns (result: Option<Entry>, ghost written: seq<Entry>, ghost rotation: Option<Rotation>)
      requires Lists(r.list) && r.retention == retention
      modifies this
      ensures result.None? ==> AuditStore.Append(log, old(dir), r, entry) == None && dir == old(dir)
      ensures result.Some? ==>
        && AuditStore.Append(log, old(dir), r, entry) == Some(Appended(dir, written, rotation))
        && written != [] && result.value == written[|written| - 1]
    {
      written, rotation := [], None;
      var decision := DecideRotation(r);
      if decision.Raise? {
        return None, written, rotation;
      }
      ghost var before := dir;
      if decision.Rotate? {
        var rotated, marker := RotateAside(r);
        written, rotation := [marker], Some(rotated);
        AppendRotates(log, before, r, entry, rotated, dir);
      } else {
        AppendStays(log, before, r, entry);
      }
      var chained := WriteLocked(entry, r.entryMtime);
      written := if rotation.None? then [chained] else [written[0], chained];
      result := Some(chained);
    }
  }

  lemma SweptOneMore(dir: Directory, deleted: seq<string>, name: string)
    ensures dir - ToSet(deleted + [name]) == (dir - ToSet(deleted)) - {name}
  {
  }
}
