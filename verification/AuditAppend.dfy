/** One append to an arbitrary log file: when verify_chain still accepts it. */
module AuditAppend {
  import opened Json
  import opened TextLines
  import opened ChainVerifier
  import opened TamperEvidence
  import opened AuditStore

  lemma ClassifyDumped(codec: Codec, e: Entry)
    requires codec.Valid()
    ensures Classify(codec, codec.dump(e)) == Record(e)
  {
    assert codec.RoundTrips(e);
    StripOneLine(codec.dump(e));
  }

  /** A written entry is one more line. */
  lemma LinesOfExtended(codec: Codec, content: string, e: Entry)
    requires codec.Valid() && NewlineTerminated(content)
    ensures NewlineTerminated(Extended(codec, Some(content), e))
    ensures LogLines(codec, Extended(codec, Some(content), e)) == LogLines(codec, content) + [Record(e)]
  {
    var line := codec.dump(e);
    assert Extended(codec, Some(content), e) == content + (line + "\n");
    SplitLinesAppend(content, line + "\n");
    assert codec.RoundTrips(e);
    assert forall c | c in line :: !IsBreak(c);
    SplitOneLine(line);
    ClassifyDumped(codec, e);
  }

  lemma ChainFields(codec: Codec, entry: Entry, at: Anchor)
    ensures var e := Chain(codec, entry, at);
      && IntegerValue(e["sequence"]) == Some(at.sequence + 1)
      && e["prev_hash"] == Str(at.hash)
      && ("entry_hash" !in entry ==> SelfConsistent(codec, e))
  {
    if "entry_hash" !in entry {
      assert Body(Chain(codec, entry, at)) == Hashed(entry, at);
    }
  }

  /** The anchor is what the pass over the file remembers, or that of a new segment. */
  predicate Anchored(s: State, at: Anchor)
    requires s.Running?
  {
    at == GENESIS_ANCHOR || s.prev == Some(Link(at.sequence, Str(at.hash)))
  }

  lemma ChainedHash(codec: Codec, entry: Entry, at: Anchor)
    ensures SelfConsistent(codec, Chain(codec, entry, at)) <==> HashIsOwn(codec, entry, at)
  {
    var hashed := Hashed(entry, at);
    assert Body(Chain(codec, entry, at)) == Body(hashed);
    assert "entry_hash" !in entry ==> Body(hashed) == hashed;
  }

  /** The caller's entry brings no hash, or one that makes no difference. */
  predicate HashIsOwn(codec: Codec, entry: Entry, at: Anchor) {
    "entry_hash" !in entry || codec.hash(Hashed(entry, at)) == codec.hash(Body(Hashed(entry, at)))
  }

  /** Appending to an accepted, newline-terminated file: the result is accepted exactly if the anchor read from
      the last line is the last link of the file or genesis, and the caller's entry brings no `entry_hash` of
      its own - or one whose presence does not change the hash. */
  lemma AppendAcceptedIff(codec: Codec, content: string, entry: Entry)
    requires codec.Valid() && NewlineTerminated(content) && Accepted(codec, LogLines(codec, content))
    ensures var at := CurrentState(codec, Some(content));
      var e := Chain(codec, entry, at);
      var s := Verify(codec, LogLines(codec, content));
      var t := Verify(codec, LogLines(codec, Extended(codec, Some(content), e)));
      && (t.Running? <==> HashIsOwn(codec, entry, at) && Anchored(s, at))
      && (t.Running? ==> t.checked == s.checked + 1 && t.legacy == s.legacy)
  {
    var at := CurrentState(codec, Some(content));
    var e := Chain(codec, entry, at);
    var lines := LogLines(codec, content);
    LinesOfExtended(codec, content, e);
    ChainFields(codec, entry, at);
    ChainedHash(codec, entry, at);
    AppendedLine(codec, lines, e, at);
  }

  lemma AppendedLine(codec: Codec, lines: seq<Line>, e: Entry, at: Anchor)
    requires Accepted(codec, lines) && IsChained(e)
    requires IntegerValue(e["sequence"]) == Some(at.sequence + 1) && e["prev_hash"] == Str(at.hash)
    ensures var s, t := Verify(codec, lines), Verify(codec, lines + [Record(e)]);
      && t == StepEntry(codec, s, e, |lines| + 1)
      && (t.Running? <==> SelfConsistent(codec, e) && Anchored(s, at))
      && (t.Running? ==> t.checked == s.checked + 1 && t.legacy == s.legacy)
  {
  }

  /** A line that carries a usable sequence and a hash but no previous hash: the reader of the last
      line takes it for a link, the verifier for a legacy entry. */
  predicate HalfChained(codec: Codec, line: string) {
    match codec.parse(line)
    case Object(e) => "sequence" in e && "entry_hash" in e && "prev_hash" !in e && ToInt(codec, e["sequence"]).Some?
    case _ => false
  }

  /** The one object in a line of an accepted log: where the line has carriage returns, the pass sees its
      pieces, but all others are blank. */
  lemma {:induction false} PiecesOfObject(codec: Codec, line: string, e: Entry) returns (pre: seq<Line>, post: seq<Line>)
    requires codec.Valid() && '\n' !in line && codec.parse(Strip(line)) == Parsed.Object(e)
    requires Readable(LogLines(codec, line + "\n"))
    ensures LogLines(codec, line + "\n") == pre + [Record(e)] + post && Quiet(post)
    decreases |line|
  {
    var k := LineEnd(line);
    if k == |line| {
      WholeLine(codec, line, e);
      pre, post := [], [];
    } else {
      var a, b := line[..k], line[k + 1..];
      LinesAtReturn(codec, line, k);
      FirstPiece(codec, line, a, b, e);
      if AllSpace(a) {
        RestReadable(Classify(codec, a), LogLines(codec, b + "\n"));
        var later;
        later, post := PiecesOfObject(codec, b, e);
        OneMoreInFront(later, Record(e), post);
        pre := [Blank] + later;
      } else {
        post := if b == "" then [] else LogLines(codec, b + "\n");
        pre := [];
        SpaceLines(codec, b, post);
      }
    }
  }

  lemma OneMoreInFront(pre: seq<Line>, line: Line, post: seq<Line>)
    ensures [Blank] + (pre + [line] + post) == ([Blank] + pre) + [line] + post
  {
  }

  lemma WholeLine(codec: Codec, line: string, e: Entry)
    requires codec.Valid() && '\n' !in line && LineEnd(line) == |line| && codec.parse(Strip(line)) == Parsed.Object(e)
    ensures LogLines(codec, line + "\n") == [Record(e)]
  {
    assert forall c | c in line :: !IsBreak(c);
    SplitOneLine(line);
  }

  lemma RestReadable(first: Line, rest: seq<Line>)
    requires Readable([first] + rest)
    ensures Readable(rest)
  {
    assert forall l | l in rest :: l in [first] + rest;
  }

  /** The first piece is blank and the object is in the rest, or it is the object and the rest is blank. */
  lemma FirstPiece(codec: Codec, line: string, a: string, b: string, e: Entry)
    requires codec.Valid() && line == a + "\r" + b && codec.parse(Strip(line)) == Parsed.Object(e)
    requires Classify(codec, a).Blank? || Classify(codec, a).Record?
    ensures if AllSpace(a) then Classify(codec, a) == Blank && b != "" && codec.parse(Strip(b)) == Parsed.Object(e)
      else AllSpace(b) && Classify(codec, a) == Record(e)
  {
    StripAround(a, b);
    StripEmptyIff(a);
    StripEmptyIff(b);
    if !AllSpace(a) && !AllSpace(b) {
      NoSecondPiece(codec, a, b);
    }
  }

  lemma LinesAtReturn(codec: Codec, line: string, k: nat)
    requires '\n' !in line && LineEnd(line) == k < |line|
    ensures LogLines(codec, line + "\n") ==
      [Classify(codec, line[..k])] + if k + 1 == |line| then [] else LogLines(codec, line[k + 1..] + "\n")
  {
    SplitAtReturn(line, k);
    ClassifyFirst(codec, line[..k], if k + 1 == |line| then [] else SplitLines(line[k + 1..] + "\n"));
  }

  lemma ClassifyFirst(codec: Codec, first: string, rest: seq<string>)
    ensures ClassifyAll(codec, [first] + rest) == [Classify(codec, first)] + ClassifyAll(codec, rest)
    ensures ClassifyAll(codec, []) == []
  {
  }

  lemma SpaceLines(codec: Codec, b: string, rest: seq<Line>)
    requires '\n' !in b && AllSpace(b) && rest == if b == "" then [] else LogLines(codec, b + "\n")
    ensures forall l :: l in rest ==> l == Blank
  {
    SpacePieces(b);
    forall i | 0 <= i < |rest|
      ensures rest[i] == Blank
    {
      assert SplitLines(b + "\n")[i] in SplitLines(b + "\n");
    }
  }

  lemma NoSecondPiece(codec: Codec, a: string, b: string)
    requires codec.Valid() && Strip(a) != "" && Strip(b) != ""
    requires codec.parse(LStrip(a) + "\r" + RStrip(b)).Object?
    ensures codec.parse(Strip(a)).Malformed?
  {
    StripOfEnds(a, b);
    assert codec.IsOneDocument(LStrip(a), RStrip(b));
  }

  /** The last line and the pass agree unless the last line is half chained. */
  lemma LastLineAnchored(codec: Codec, content: string)
    requires codec.Valid() && NewlineTerminated(content) && Accepted(codec, LogLines(codec, content))
    requires LastLine(content, '\n').Some? ==> !HalfChained(codec, LastLine(content, '\n').value)
    ensures Anchored(Verify(codec, LogLines(codec, content)), CurrentState(codec, Some(content)))
  {
    if LastLine(content, '\n').Some? && CurrentState(codec, Some(content)) != GENESIS_ANCHOR {
      var last := LastLine(content, '\n').value;
      var head, n := LastLineAmongLines(content);
      assert codec.IgnoresSpace(last);
      LinesByParts(codec, content, head, last + "\n", n);
      BlankLines(codec, n);
      LinkInParts(codec, ClassifyAll(codec, head), last, codec.parse(last).entry, ClassifyAll(codec, Blanks(n)));
    }
  }

  lemma LinkInParts(codec: Codec, first: seq<Line>, last: string, e: Entry, blanks: seq<Line>)
    requires codec.Valid() && '\n' !in last && codec.parse(Strip(last)) == Parsed.Object(e) && IsChained(e) && Quiet(blanks)
    requires Accepted(codec, first + LogLines(codec, last + "\n") + blanks)
    ensures Verify(codec, first + LogLines(codec, last + "\n") + blanks).prev == LinkOf(e) && LinkOf(e).Some? && e["entry_hash"].Str?
  {
    var middle := LogLines(codec, last + "\n");
    VerifyMeaning(codec, first + middle + blanks);
    ReadableMiddle(first, middle, blanks);
    var pre, post := PiecesOfObject(codec, last, e);
    assert first + (pre + [Record(e)] + post) + blanks == (first + pre) + [Record(e)] + (post + blanks);
    TailIsLink(codec, first + pre, e, post + blanks);
  }

  lemma LinesByParts(codec: Codec, content: string, head: seq<string>, middle: string, n: nat)
    requires SplitLines(content) == head + SplitLines(middle) + Blanks(n)
    ensures LogLines(codec, content) == ClassifyAll(codec, head) + LogLines(codec, middle) + ClassifyAll(codec, Blanks(n))
  {
  }

  lemma ReadableMiddle(a: seq<Line>, b: seq<Line>, c: seq<Line>)
    requires Readable(a + b + c)
    ensures Readable(b)
  {
    forall l | l in b
      ensures l.Blank? || l.Record?
    {
      assert l in a + b + c;
    }
  }

  lemma BlankLines(codec: Codec, n: nat)
    ensures forall l :: l in ClassifyAll(codec, Blanks(n)) ==> l == Blank
  {
    var raw := Blanks(n);
    assert Strip("") == "";
    forall i | 0 <= i < n
      ensures ClassifyAll(codec, raw)[i] == Blank
    {
      assert raw[i] in raw;
    }
  }

  /** If only blank lines follow e, the pass remembers e. */
  lemma TailIsLink(codec: Codec, pre: seq<Line>, e: Entry, post: seq<Line>)
    requires IsChained(e) && Quiet(post)
    requires Accepted(codec, pre + [Record(e)] + post)
    ensures Verify(codec, pre + [Record(e)] + post).prev == LinkOf(e) && LinkOf(e).Some? && e["entry_hash"].Str?
  {
    var s := Step(codec, Verify(codec, pre), Record(e), |pre| + 1);
    RunComposes(codec, FRESH, 0, pre, [Record(e)]);
    RunOne(codec, Verify(codec, pre), |pre|, Record(e));
    RunComposes(codec, FRESH, 0, pre + [Record(e)], post);
    if !s.Running? {
      Absorbing(codec, s, |pre| + 1, post);
    }
    QuietRun(codec, s, |pre| + 1, post);
  }

  /** A log that the verifier accepts and that the next append continues rightly. */
  ghost predicate Healthy(codec: Codec, content: string) {
    && NewlineTerminated(content) && Accepted(codec, LogLines(codec, content))
    && (LastLine(content, '\n').Some? ==> !HalfChained(codec, LastLine(content, '\n').value))
  }

  /** An append keeps any accepted log accepted - legacy entries, several segments and blank lines
      included - if its last line is not half chained and the caller's entry has no hash of its own. */
  lemma AppendKeepsAccepted(codec: Codec, content: string, entry: Entry)
    requires codec.Valid() && Healthy(codec, content) && "entry_hash" !in entry
    ensures var e := Chain(codec, entry, CurrentState(codec, Some(content)));
      var after := Extended(codec, Some(content), e);
      && Healthy(codec, after)
      && Verify(codec, LogLines(codec, after)).checked == Verify(codec, LogLines(codec, content)).checked + 1
  {
    var at := CurrentState(codec, Some(content));
    LastLineAnchored(codec, content);
    ChainFields(codec, entry, at);
    AppendAcceptedIff(codec, content, entry);
    var e := Chain(codec, entry, at);
    LinesOfExtended(codec, content, e);
    LastLineOfExtended(codec, content, e);
    assert codec.RoundTrips(e);
  }

  /** Without the first condition it fails: after a half-chained last line that no chained entry
      precedes, the next entry continues from a link that the verifier never saw. */
  lemma HalfChainedTailBreaks(codec: Codec, legacy: Entry, entry: Entry)
    requires codec.Valid()
    requires legacy == map["sequence" := Int(7), "entry_hash" := Str("abc")]
    ensures var content := Extended(codec, Some(""), legacy);
      var e := Chain(codec, entry, CurrentState(codec, Some(content)));
      && Accepted(codec, LogLines(codec, content))
      && !Accepted(codec, LogLines(codec, Extended(codec, Some(content), e)))
  {
    var content := Extended(codec, Some(""), legacy);
    LegacyOnly(codec, legacy);
    AnchorOfDumped(codec, "", legacy, 7, "abc");
    AppendAcceptedIff(codec, content, entry);
  }

  lemma LegacyOnly(codec: Codec, legacy: Entry)
    requires codec.Valid() && !IsChained(legacy)
    ensures var s := Verify(codec, LogLines(codec, Extended(codec, Some(""), legacy))); s.Running? && s.prev.None?
    ensures NewlineTerminated(Extended(codec, Some(""), legacy))
  {
    LinesOfExtended(codec, "", legacy);
    assert LogLines(codec, "") == [];
    assert LogLines(codec, "") + [Record(legacy)] == [Record(legacy)];
    RunOne(codec, FRESH, 0, Record(legacy));
  }

  /** The state read back after e was written. */
  lemma AnchorOfDumped(codec: Codec, content: string, e: Entry, number: int, hash: string)
    requires codec.Valid() && NewlineTerminated(content)
    requires "sequence" in e && e["sequence"] == Int(number) && "entry_hash" in e && e["entry_hash"] == Str(hash)
    ensures CurrentState(codec, Some(Extended(codec, Some(content), e))) == Anchor(number, hash)
  {
    LastLineOfExtended(codec, content, e);
    assert codec.RoundTrips(e);
  }

  lemma LastLineOfExtended(codec: Codec, content: string, e: Entry)
    requires codec.Valid() && NewlineTerminated(content)
    ensures LastLine(Extended(codec, Some(content), e), '\n') == Some(codec.dump(e))
  {
    var line := codec.dump(e);
    assert codec.RoundTrips(e);
    NewlineIgnored(content + line);
    AfterLastLine(content, line);
  }

  lemma {:induction false} AfterLastLine(content: string, line: string)
    requires NewlineTerminated(content) && '\n' !in line
    ensures AfterLast(content + line, '\n') == line
  {
    if line == [] {
      assert content + line == content;
    } else {
      var n := |line| - 1;
      assert (content + line)[..|content| + n] == content + line[..n];
      AfterLastLine(content, line[..n]);
    }
  }

  /** Without the second condition it fails too: a hash that the caller's entry brings along is part of
      what is hashed but not of what the verifier hashes, so the log breaks unless the two collide. */
  lemma OwnHashBreaks(codec: Codec, content: string, entry: Entry)
    requires codec.Valid() && NewlineTerminated(content) && Accepted(codec, LogLines(codec, content))
    requires "entry_hash" in entry
    ensures var at := CurrentState(codec, Some(content));
      var hashed := Hashed(entry, at);
      && hashed != Body(hashed)
      && (Accepted(codec, LogLines(codec, Extended(codec, Some(content), Chain(codec, entry, at)))) ==>
           codec.hash(hashed) == codec.hash(Body(hashed)))
  {
    var hashed := Hashed(entry, CurrentState(codec, Some(content)));
    AppendAcceptedIff(codec, content, entry);
    assert "entry_hash" in hashed && "entry_hash" !in Body(hashed);
  }
}
