/** What verify_chain accepts and counts, line by line: what each line parses to, and where each chained
    entry stands. */
module AcceptedLogs {
  import opened Json
  import opened TextLines
  import opened ChainVerifier

  /** What a line of the file is, without the space around it: nothing, no JSON, no object, or an entry. */
  lemma LinesExactly(codec: Codec, content: string)
    ensures var raw, lines := SplitLines(content), LogLines(codec, content);
      && |lines| == |raw|
      && forall i :: 0 <= i < |raw| ==>
           var text := Strip(raw[i]);
           && (lines[i] == Blank <==> text == "")
           && (lines[i] == NotJson <==> text != "" && codec.parse(text) == Malformed)
           && (lines[i] == NotAnObject <==> text != "" && codec.parse(text) == NonObject)
           && (forall e :: lines[i] == Record(e) <==> text != "" && codec.parse(text) == Parsed.Object(e))
  {
  }

  /** Line i is an entry with all three fields of the chain. */
  predicate ChainedAt(lines: seq<Line>, i: nat)
    requires i < |lines|
  {
    lines[i].Record? && {"sequence", "prev_hash", "entry_hash"} <= lines[i].entry.Keys
  }

  /** Line i is a first entry: number one, after 64 zeros. */
  predicate StartsAt(lines: seq<Line>, i: nat)
    requires i < |lines| && ChainedAt(lines, i)
  {
    && IntegerValue(lines[i].entry["sequence"]) == Some(1)
    && lines[i].entry["prev_hash"] == Str("0000000000000000000000000000000000000000000000000000000000000000")
  }

  /** Line i has the number after that of line j, and its hash as previous hash. */
  predicate ContinuesAt(lines: seq<Line>, j: nat, i: nat)
    requires j < |lines| && i < |lines| && ChainedAt(lines, j) && ChainedAt(lines, i)
  {
    var p, e := lines[j].entry, lines[i].entry;
    && IntegerValue(p["sequence"]).Some?
    && IntegerValue(e["sequence"]) == Some(IntegerValue(p["sequence"]).value + 1)
    && e["prev_hash"] == p["entry_hash"]
  }

  /** Line j is the last chained one before line i. */
  ghost predicate JustBefore(lines: seq<Line>, j: nat, i: nat)
    requires i <= |lines|
  {
    j < i && ChainedAt(lines, j) && forall m :: j < m < i ==> !ChainedAt(lines, m)
  }

  /** Line i, if chained, matches its own hash and is a first entry or continues the last chained one before it. */
  ghost predicate InPlace(codec: Codec, lines: seq<Line>, i: nat)
    requires i < |lines|
  {
    ChainedAt(lines, i) ==>
      && lines[i].entry["entry_hash"] == Str(codec.hash(lines[i].entry - {"entry_hash"}))
      && (StartsAt(lines, i) || exists j :: JustBefore(lines, j, i) && ContinuesAt(lines, j, i))
  }

  lemma OneMoreLine(lines: seq<Line>, i: nat)
    requires i < |lines|
    ensures ChainedEntries(lines[..i + 1]) ==
      ChainedEntries(lines[..i]) + if ChainedAt(lines, i) then [lines[i].entry] else []
    ensures LegacyCount(lines[..i + 1]) ==
      LegacyCount(lines[..i]) + if lines[i].Record? && !ChainedAt(lines, i) then 1 else 0
  {
    assert lines[..i + 1][..i] == lines[..i];
  }

  /** The last chained entry and its line. */
  lemma {:induction false} LastChainedAt(lines: seq<Line>, i: nat) returns (j: nat)
    requires i <= |lines|
    ensures var es := ChainedEntries(lines[..i]);
      if es == [] then forall m :: 0 <= m < i ==> !ChainedAt(lines, m)
      else JustBefore(lines, j, i) && es[|es| - 1] == lines[j].entry
    decreases i
  {
    j := 0;
    if i > 0 {
      j := LastChainedAt(lines, i - 1);
      OneMoreLine(lines, i - 1);
      if ChainedAt(lines, i - 1) {
        j := i - 1;
      }
    }
  }

  lemma PlaceOfLast(codec: Codec, lines: seq<Line>, k: nat)
    requires k < |lines| && ChainedAt(lines, k)
    ensures var es, e := ChainedEntries(lines[..k]), lines[k].entry;
      InPlace(codec, lines, k) <==>
        IsChained(e) && SelfConsistent(codec, e) && (IsStart(e) || (es != [] && Follows(es[|es| - 1], e)))
  {
    var j := LastChainedAt(lines, k);
    forall m | JustBefore(lines, m, k)
      ensures m == j
    {
    }
  }

  lemma {:induction false} LinkedAt(codec: Codec, lines: seq<Line>, n: nat)
    requires n <= |lines|
    ensures Linked(codec, ChainedEntries(lines[..n])) <==> forall i :: 0 <= i < n ==> InPlace(codec, lines, i)
    decreases n
  {
    if n > 0 {
      LinkedAt(codec, lines, n - 1);
      LinkedStep(codec, lines, n - 1);
    }
  }

  lemma LinkedStep(codec: Codec, lines: seq<Line>, k: nat)
    requires k < |lines|
    ensures Linked(codec, ChainedEntries(lines[..k + 1])) <==>
      Linked(codec, ChainedEntries(lines[..k])) && InPlace(codec, lines, k)
  {
    var es, fs := ChainedEntries(lines[..k]), ChainedEntries(lines[..k + 1]);
    OneMoreLine(lines, k);
    if ChainedAt(lines, k) {
      PlaceOfLast(codec, lines, k);
      if Linked(codec, es) {
        LinkedSnoc(codec, es, lines[k].entry);
      } else if Linked(codec, fs) {
        assert fs[..|es|] == es;
        LinkedPrefix(codec, fs, |es|);
      }
    } else {
      assert es + [] == es;
    }
  }

  /** A log is good - accepted by verify_chain - exactly if each of its lines is blank or an entry, and each chained one
      is in its place. */
  lemma GoodExactly(codec: Codec, lines: seq<Line>)
    ensures Good(codec, lines) <==>
      forall i :: 0 <= i < |lines| ==> (lines[i].Blank? || lines[i].Record?) && InPlace(codec, lines, i)
  {
    LinkedAt(codec, lines, |lines|);
    assert lines[..|lines|] == lines;
    assert Readable(lines) <==> forall i :: 0 <= i < |lines| ==> lines[i].Blank? || lines[i].Record?;
  }

  function ChainedLines(lines: seq<Line>): set<nat> {
    set i: nat | i < |lines| && ChainedAt(lines, i)
  }

  function LegacyLines(lines: seq<Line>): set<nat> {
    set i: nat | i < |lines| && lines[i].Record? && !ChainedAt(lines, i)
  }

  lemma OneMore(a: set<nat>, b: set<nat>, n: nat, more: bool)
    requires n !in a && forall i :: i in b <==> i in a || (more && i == n)
    ensures |b| == |a| + if more then 1 else 0
  {
    assert b == if more then a + {n} else a;
  }

  lemma ChainedSnoc(lines: seq<Line>, line: Line)
    ensures |ChainedLines(lines + [line])| == |ChainedLines(lines)| + if IsChainLine(line) then 1 else 0
  {
    var n: nat, all := |lines|, lines + [line];
    forall i: nat
      ensures i in ChainedLines(all) <==> i in ChainedLines(lines) || (IsChainLine(line) && i == n)
    {
      assert i < n ==> all[i] == lines[i];
    }
    OneMore(ChainedLines(lines), ChainedLines(all), n, IsChainLine(line));
  }

  lemma LegacySnoc(lines: seq<Line>, line: Line)
    ensures |LegacyLines(lines + [line])| == |LegacyLines(lines)| + if IsLegacyLine(line) then 1 else 0
  {
    var n: nat, all := |lines|, lines + [line];
    forall i: nat
      ensures i in LegacyLines(all) <==> i in LegacyLines(lines) || (IsLegacyLine(line) && i == n)
    {
      assert i < n ==> all[i] == lines[i];
    }
    OneMore(LegacyLines(lines), LegacyLines(all), n, IsLegacyLine(line));
  }

  lemma {:induction false} CountsAt(lines: seq<Line>)
    ensures |ChainedEntries(lines)| == |ChainedLines(lines)| && LegacyCount(lines) == |LegacyLines(lines)|
    decreases |lines|
  {
    if lines == [] {
      assert ChainedLines(lines) == {} && LegacyLines(lines) == {};
    } else {
      var n := |lines| - 1;
      CountsAt(lines[..n]);
      assert lines == lines[..n] + [lines[n]];
      ChainedSnoc(lines[..n], lines[n]);
      LegacySnoc(lines[..n], lines[n]);
    }
  }

  /** The line of that number starts a segment that is not the first. */
  ghost predicate LaterStart(lines: seq<Line>, number: nat)
    requires 1 <= number <= |lines|
  {
    && ChainedAt(lines, number - 1) && StartsAt(lines, number - 1)
    && exists j :: 0 <= j < number - 1 && ChainedAt(lines, j)
  }

  lemma BoundaryAt(lines: seq<Line>, number: nat)
    requires 1 <= number <= |lines|
    ensures IsBoundary(lines, number) <==> LaterStart(lines, number)
  {
    var j := LastChainedAt(lines, number - 1);
  }

  /** What a report with the counts of `lines` counts: the chained lines, the other entries, and as boundary each first
      entry with a chained line somewhere before it. */
  lemma CountsExactly(lines: seq<Line>, r: Report)
    requires Counts(r, lines)
    ensures r.entriesChecked == |ChainedLines(lines)| && r.legacyEntries == |LegacyLines(lines)|
    ensures forall number :: number in r.segmentBoundaries <==> 1 <= number <= |lines| && LaterStart(lines, number)
  {
    CountsAt(lines);
    forall number: nat | 1 <= number <= |lines|
      ensures IsBoundary(lines, number) <==> LaterStart(lines, number)
    {
      BoundaryAt(lines, number);
    }
  }
}
