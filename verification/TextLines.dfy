/** Text files as Python sees them: iteration over lines in text mode (universal newlines),
    and the last line by a bounded backward read of the bytes. */
module TextLines {
  import opened Json
  import opened Sequences

  predicate IsBreak(c: char) {
    c == '\n' || c == '\r'
  }

  /** Position of the first line break of `s`, or |s|. */
  function LineEnd(s: string): (k: nat)
    ensures k <= |s|
    ensures forall i :: 0 <= i < k ==> !IsBreak(s[i])
    ensures k < |s| ==> IsBreak(s[k])
  {
    BreakFrom(s, 0)
  }

  function BreakFrom(s: string, i: nat): (k: nat)
    requires i <= |s|
    ensures i <= k <= |s|
    ensures forall j :: i <= j < k ==> !IsBreak(s[j])
    ensures k < |s| ==> IsBreak(s[k])
    decreases |s| - i
  {
    if i == |s| || IsBreak(s[i]) then i else BreakFrom(s, i + 1)
  }

  /** Length of the line break at position k: "\r\n" is one break. */
  function BreakLength(s: string, k: nat): (n: nat)
    requires k < |s|
    ensures 1 <= n && k + n <= |s|
  {
    if s[k] == '\r' && k + 1 < |s| && s[k + 1] == '\n' then 2 else 1
  }

  /** The lines that `for line in f` yields, without their line breaks. */
  function SplitLines(s: string): seq<string>
    decreases |s|
  {
    if s == [] then []
    else
      var k := LineEnd(s);
      if k == |s| then [s] else [s[..k]] + SplitLines(AfterBreak(s, k))
  }

  /** What follows the line break at position k. */
  function AfterBreak(s: string, k: nat): (rest: string)
    requires k < |s|
    ensures |rest| < |s|
  {
    s[k + BreakLength(s, k)..]
  }

  predicate NewlineTerminated(s: string) {
    s == [] || s[|s| - 1] == '\n'
  }

  lemma LineEndPrefix(a: string, b: string)
    requires LineEnd(a) < |a|
    ensures LineEnd(a + b) == LineEnd(a)
  {
    var k := LineEnd(a);
    assert (a + b)[k] == a[k];
    assert forall i :: 0 <= i < k ==> (a + b)[i] == a[i];
  }

  lemma SplitFirst(s: string, k: nat, n: nat)
    requires s != [] && LineEnd(s) == k < |s| && BreakLength(s, k) == n
    ensures SplitLines(s) == [s[..k]] + SplitLines(s[k + n..])
  {
    assert AfterBreak(s, k) == s[k + n..];
  }

  lemma BreakOfPrefix(a: string, b: string, k: nat)
    requires k < |a| && NewlineTerminated(a) && LineEnd(a) == k
    ensures BreakLength(a + b, k) == BreakLength(a, k)
  {
  }

  lemma SplitFirstAppended(a: string, b: string, k: nat, n: nat)
    requires NewlineTerminated(a) && LineEnd(a) == k < |a| && BreakLength(a, k) == n
    ensures SplitLines(a + b) == [a[..k]] + SplitLines(a[k + n..] + b)
  {
    LineEndPrefix(a, b);
    BreakOfPrefix(a, b, k);
    SplitFirst(a + b, k, n);
    CutAppended(a, b, k);
    CutAppended(a, b, k + n);
  }

  /** Text appended after a final newline only adds lines. */
  lemma {:induction false} SplitLinesAppend(a: string, b: string)
    requires NewlineTerminated(a)
    ensures SplitLines(a + b) == SplitLines(a) + SplitLines(b)
    decreases |a|
  {
    if a == [] {
      assert a + b == b;
    } else {
      var k := LineEnd(a);
      if k == |a| {
        assert IsBreak(a[|a| - 1]);
      }
      var n := BreakLength(a, k);
      var rest := a[k + n..];
      SplitFirst(a, k, n);
      SplitFirstAppended(a, b, k, n);
      SplitLinesAppend(rest, b);
      Regroup([a[..k]], SplitLines(rest), SplitLines(b));
    }
  }

  lemma {:induction false} SplitOneLine(line: string)
    requires forall c | c in line :: !IsBreak(c)
    ensures SplitLines(line + "\n") == [line]
  {
    var s := line + "\n";
    var k := LineEnd(s);
    assert forall i | 0 <= i < |line| :: s[i] == line[i] && line[i] in line;
    assert s[|line|] == '\n';
    assert s[..k] == line && s[k + 1..] == [];
  }

  /** Every line is free of breaks and ends with one of the three kinds - but for a last line without a break - and a
      "\r" with a "\n" behind it is one break. */
  ghost predicate Breaks(lines: seq<string>, breaks: seq<string>) {
    && |breaks| == |lines|
    && (forall i :: 0 <= i < |lines| ==> '\n' !in lines[i] && '\r' !in lines[i])
    && (forall i :: 0 <= i < |lines| ==>
         || breaks[i] == "\n" || breaks[i] == "\r" || breaks[i] == "\r\n"
         || (breaks[i] == "" && i == |lines| - 1 && lines[i] != ""))
    && (forall i :: 0 < i < |lines| && breaks[i] == "\n" && lines[i] == "" ==> breaks[i - 1] != "\r")
  }

  function Unsplit(lines: seq<string>, breaks: seq<string>): string
    requires |breaks| == |lines|
  {
    if lines == [] then "" else lines[0] + breaks[0] + Unsplit(lines[1..], breaks[1..])
  }

  /** The lines with their breaks are the text: nothing is dropped, split or joined but at a break. */
  lemma {:induction false} SplitLinesExactly(s: string) returns (breaks: seq<string>)
    ensures Breaks(SplitLines(s), breaks) && Unsplit(SplitLines(s), breaks) == s
    decreases |s|
  {
    breaks := [];
    if s != [] {
      var k := LineEnd(s);
      if k == |s| {
        breaks := [""];
        assert s + "" + "" == s;
      } else {
        var n := BreakLength(s, k);
        var rest := SplitLinesExactly(s[k + n..]);
        SplitFirst(s, k, n);
        breaks := [s[k..k + n]] + rest;
        FirstBreak(s, k, n, SplitLines(s[k + n..]), rest);
      }
    }
  }

  lemma FirstBreak(s: string, k: nat, n: nat, lines: seq<string>, rest: seq<string>)
    requires LineEnd(s) == k < |s| && BreakLength(s, k) == n
    requires Breaks(lines, rest) && Unsplit(lines, rest) == s[k + n..]
    ensures Breaks([s[..k]] + lines, [s[k..k + n]] + rest) && Unsplit([s[..k]] + lines, [s[k..k + n]] + rest) == s
  {
    var all, breaks := [s[..k]] + lines, [s[k..k + n]] + rest;
    assert all[1..] == lines && breaks[1..] == rest;
    assert s[..k] + s[k..k + n] + s[k + n..] == s;
    assert breaks[0] == if n == 2 then "\r\n" else [s[k]];
    if lines != [] && rest[0] == "\n" && lines[0] == "" {
      assert s[k + n..] == "" + "\n" + Unsplit(lines[1..], rest[1..]);
      assert s[k + n] == s[k + n..][0] == '\n';
      assert breaks[0] != "\r";
    }
  }

  // ----- the last line -----

  /** `s` without its trailing `nl`s: bytes.rstrip. */
  function StripEnd<T(==)>(s: seq<T>, nl: T): (r: seq<T>)
    ensures r == [] || r[|r| - 1] != nl
    ensures r <= s
  {
    if s != [] && s[|s| - 1] == nl then StripEnd(s[..|s| - 1], nl) else s
  }

  /** What follows the last `nl` of `s`: rsplit(nl, 1)[-1]. */
  function AfterLast<T(==)>(s: seq<T>, nl: T): (r: seq<T>)
    ensures nl !in r
    ensures |r| <= |s| && r == s[|s| - |r|..]
    ensures |r| == |s| || s[|s| - |r| - 1] == nl
  {
    if s == [] || s[|s| - 1] == nl then []
    else
      var r := AfterLast(s[..|s| - 1], nl) + [s[|s| - 1]];
      assert r == s[|s| - |r|..];
      r
  }

  /** The last line of `content` that is not empty, if any. */
  function LastLine<T(==)>(content: seq<T>, nl: T): Option<seq<T>> {
    var stripped := StripEnd(content, nl);
    if stripped == [] then None else Some(AfterLast(stripped, nl))
  }

  lemma {:induction false} StripEndOfSuffix<T>(a: seq<T>, b: seq<T>, nl: T)
    requires StripEnd(b, nl) != []
    ensures StripEnd(a + b, nl) == a + StripEnd(b, nl)
    decreases |b|
  {
    if b[|b| - 1] == nl {
      assert (a + b)[..|a + b| - 1] == a + b[..|b| - 1];
      StripEndOfSuffix(a, b[..|b| - 1], nl);
    }
  }

  lemma {:induction false} AfterLastOfSuffix<T>(a: seq<T>, b: seq<T>, nl: T)
    requires nl in b
    ensures AfterLast(a + b, nl) == AfterLast(b, nl)
    decreases |b|
  {
    if b[|b| - 1] != nl {
      assert nl in b[..|b| - 1];
      assert (a + b)[..|a + b| - 1] == a + b[..|b| - 1];
      AfterLastOfSuffix(a, b[..|b| - 1], nl);
    }
  }

  lemma {:induction false} AfterLastWhole<T>(s: seq<T>, nl: T)
    requires nl !in s
    ensures AfterLast(s, nl) == s
  {
  }

  /** Reads the file backward in chunks until a whole last line is in `data`. */
  method ReadLastLine<T(==)>(file: Option<seq<T>>, nl: T, chunkSize: nat) returns (line: Option<seq<T>>)
    requires chunkSize >= 1
    ensures line == if file.None? then None else LastLine(file.value, nl)
  {
    if file.None? {
      return None;
    }
    var content := file.value;
    if |content| == 0 {
      return None;
    }
    var data: seq<T> := [];
    var pos := |content|;
    while pos > 0
      invariant 0 <= pos <= |content|
      invariant data == content[pos..]
      invariant nl !in StripEnd(data, nl)
      invariant pos == 0 ==> data == []
      decreases pos
    {
      var readSize := if chunkSize < pos then chunkSize else pos;
      pos := pos - readSize;
      data := content[pos..pos + readSize] + data;
      assert data == content[pos..] && content == content[..pos] + data;
      var stripped := StripEnd(data, nl);
      if nl in stripped {
        StripEndOfSuffix(content[..pos], data, nl);
        AfterLastOfSuffix(content[..pos], stripped, nl);
        return Some(AfterLast(stripped, nl));
      }
      if pos == 0 {
        AfterLastWhole(stripped, nl);
        return if stripped != [] then Some(stripped) else None;
      }
    }
    return None;
  }

  // ----- the last line among the lines -----

  function Blanks(n: nat): (ls: seq<string>)
    ensures |ls| == n && forall l | l in ls :: l == ""
  {
    if n == 0 then [] else [""] + Blanks(n - 1)
  }

  /** A file that ends in a newline ends, as seen line by line, in its last line - or, where that has carriage
      returns, in the pieces of it - followed by empty lines only. */
  lemma {:induction false} LastLineAmongLines(content: string) returns (head: seq<string>, n: nat)
    requires NewlineTerminated(content) && LastLine(content, '\n').Some?
    ensures SplitLines(content) == head + SplitLines(LastLine(content, '\n').value + "\n") + Blanks(n)
    decreases |content|
  {
    var init := content[..|content| - 1];
    assert content == init + "\n";
    NewlineIgnored(init);
    if NewlineTerminated(init) {
      head, n := LastLineAmongLines(init);
      OneMoreBlank(init);
      BlanksSnoc(n);
      Regroup(head + SplitLines(LastLine(init, '\n').value + "\n"), Blanks(n), [""]);
      n := n + 1;
    } else {
      head := UnfinishedLine(init);
      n := 0;
      assert Blanks(0) == [];
    }
  }

  lemma NewlineIgnored(s: string)
    ensures LastLine(s + "\n", '\n') == LastLine(s, '\n')
  {
  }

  lemma OneMoreBlank(s: string)
    requires NewlineTerminated(s)
    ensures SplitLines(s + "\n") == SplitLines(s) + [""]
  {
    SplitLinesAppend(s, "\n");
    SplitOneLine("");
    assert "" + "\n" == "\n";
  }

  /** A text that does not end in a newline, once its last line is finished. */
  lemma UnfinishedLine(s: string) returns (head: seq<string>)
    requires !NewlineTerminated(s)
    ensures LastLine(s, '\n') == Some(AfterLast(s, '\n'))
    ensures SplitLines(s + "\n") == head + SplitLines(AfterLast(s, '\n') + "\n")
  {
    var last := AfterLast(s, '\n');
    var before := s[..|s| - |last|];
    assert s == before + last && s + "\n" == before + (last + "\n");
    SplitLinesAppend(before, last + "\n");
    head := SplitLines(before);
  }

  lemma {:induction false} BlanksSnoc(n: nat)
    ensures Blanks(n) + [""] == Blanks(n + 1)
  {
    if n > 0 {
      BlanksSnoc(n - 1);
    }
  }

  // ----- a last line with carriage returns -----

  predicate AllSpace(s: string) {
    forall i :: 0 <= i < |s| ==> IsSpace(s[i])
  }

  lemma {:induction false} LStripSpace(a: string, b: string)
    requires AllSpace(a)
    ensures LStrip(a + b) == LStrip(b)
    decreases |a|
  {
    if a == [] {
      assert a + b == b;
    } else {
      assert (a + b)[1..] == a[1..] + b;
      LStripSpace(a[1..], b);
    }
  }

  lemma {:induction false} LStripKeeps(a: string, b: string)
    requires !AllSpace(a)
    ensures LStrip(a + b) == LStrip(a) + b
    decreases |a|
  {
    if IsSpace(a[0]) {
      assert (a + b)[1..] == a[1..] + b;
      assert !AllSpace(a[1..]) by {
        var i :| 0 <= i < |a| && !IsSpace(a[i]);
        assert a[1..][i - 1] == a[i];
      }
      LStripKeeps(a[1..], b);
    }
  }

  lemma {:induction false} RStripSpace(a: string, b: string)
    requires AllSpace(b)
    ensures RStrip(a + b) == RStrip(a)
    decreases |b|
  {
    if b == [] {
      assert a + b == a;
    } else {
      assert (a + b)[..|a + b| - 1] == a + b[..|b| - 1];
      RStripSpace(a, b[..|b| - 1]);
    }
  }

  lemma {:induction false} RStripKeeps(a: string, b: string)
    requires !AllSpace(b)
    ensures RStrip(a + b) == a + RStrip(b)
    decreases |b|
  {
    var n := |b| - 1;
    if IsSpace(b[n]) {
      assert (a + b)[..|a + b| - 1] == a + b[..n];
      assert !AllSpace(b[..n]) by {
        var i :| 0 <= i < |b| && !IsSpace(b[i]);
        assert b[..n][i] == b[i];
      }
      RStripKeeps(a, b[..n]);
    }
  }

  lemma LStripEnd(s: string)
    ensures AllSpace(s) ==> LStrip(s) == ""
    ensures !AllSpace(s) ==> !AllSpace(LStrip(s))
  {
    if AllSpace(s) {
      assert s + "" == s;
      LStripSpace(s, "");
    } else {
      LStripFirst(s);
    }
  }

  lemma {:induction false} LStripFirst(s: string)
    requires !AllSpace(s)
    ensures LStrip(s) != "" && !IsSpace(LStrip(s)[0])
    decreases |s|
  {
    if IsSpace(s[0]) {
      assert !AllSpace(s[1..]) by {
        var i :| 0 <= i < |s| && !IsSpace(s[i]);
        assert s[1..][i - 1] == s[i];
      }
      LStripFirst(s[1..]);
    }
  }

  lemma StripEmptyIff(s: string)
    ensures Strip(s) == "" <==> AllSpace(s)
  {
    LStripEnd(s);
    if !AllSpace(s) {
      var t := LStrip(s);
      assert "" + t == t;
      RStripKeepsSome(t);
    }
  }

  lemma {:induction false} RStripKeepsSome(s: string)
    requires !AllSpace(s)
    ensures RStrip(s) != ""
    decreases |s|
  {
    var n := |s| - 1;
    if IsSpace(s[n]) {
      assert !AllSpace(s[..n]) by {
        var i :| 0 <= i < |s| && !IsSpace(s[i]);
        assert s[..n][i] == s[i];
      }
      RStripKeepsSome(s[..n]);
    }
  }

  /** Space on one side of a carriage return goes with it; otherwise the return stays inside. */
  lemma StripAround(a: string, b: string)
    ensures AllSpace(a) ==> Strip(a + "\r" + b) == Strip(b)
    ensures AllSpace(b) ==> Strip(a + "\r" + b) == Strip(a)
    ensures !AllSpace(a) && !AllSpace(b) ==> Strip(a + "\r" + b) == LStrip(a) + "\r" + RStrip(b)
  {
    if AllSpace(a) {
      LStripSpace(a + "\r", b);
    }
    assert a + "\r" + b == a + ("\r" + b);
    if AllSpace(b) {
      assert AllSpace("\r" + b);
      if AllSpace(a) {
        assert AllSpace(a + ("\r" + b));
        StripEmptyIff(a + ("\r" + b));
        StripEmptyIff(a);
      } else {
        LStripKeeps(a, "\r" + b);
        RStripSpace(LStrip(a), "\r" + b);
      }
    } else if !AllSpace(a) {
      LStripKeeps(a, "\r" + b);
      assert LStrip(a) + ("\r" + b) == LStrip(a) + "\r" + b;
      RStripKeeps(LStrip(a) + "\r", b);
    }
  }

  lemma StripOfEnds(a: string, b: string)
    ensures Strip(LStrip(a)) == Strip(a)
    ensures Strip(RStrip(b)) == "" <==> Strip(b) == ""
  {
    LStripTwice(a);
    StripEmptyIff(b);
    StripEmptyIff(RStrip(b));
    if AllSpace(b) {
      assert "" + b == b;
      RStripSpace("", b);
    } else {
      RStripHasSome(b);
    }
  }

  lemma {:induction false} LStripTwice(s: string)
    ensures LStrip(LStrip(s)) == LStrip(s)
    decreases |s|
  {
    if s != [] && IsSpace(s[0]) {
      LStripTwice(s[1..]);
    }
  }

  lemma {:induction false} RStripHasSome(s: string)
    requires !AllSpace(s)
    ensures !AllSpace(RStrip(s))
    decreases |s|
  {
    var n := |s| - 1;
    if IsSpace(s[n]) {
      assert !AllSpace(s[..n]) by {
        var i :| 0 <= i < |s| && !IsSpace(s[i]);
        assert s[..n][i] == s[i];
      }
      RStripHasSome(s[..n]);
    }
  }

  /** The pieces of a finished line at its first carriage return. */
  lemma SplitAtReturn(line: string, k: nat)
    requires '\n' !in line && LineEnd(line) == k < |line|
    ensures line == line[..k] + "\r" + line[k + 1..]
    ensures SplitLines(line + "\n") == [line[..k]] + if k + 1 == |line| then [] else SplitLines(line[k + 1..] + "\n")
  {
    ReturnAt(line, k);
    LineEndPrefix(line, "\n");
    ReturnCut(line, k);
    SplitFirst(line + "\n", k, if k + 1 == |line| then 2 else 1);
    assert SplitLines([]) == [];
  }

  lemma ReturnAt(line: string, k: nat)
    requires '\n' !in line && LineEnd(line) == k < |line|
    ensures line[k] == '\r' && line == line[..k] + "\r" + line[k + 1..]
  {
    assert line[k] in line;
    ThreeParts(line, k);
  }

  lemma ThreeParts(s: string, k: nat)
    requires k < |s|
    ensures s == s[..k] + [s[k]] + s[k + 1..]
  {
  }

  /** A finished line, cut at its carriage return: a last return and the newline are one break. */
  lemma ReturnCut(line: string, k: nat)
    requires '\n' !in line && k < |line| && line[k] == '\r'
    ensures var s, n := line + "\n", if k + 1 == |line| then 2 else 1;
      && BreakLength(s, k) == n && s[..k] == line[..k]
      && s[k + n..] == if k + 1 == |line| then [] else line[k + 1..] + "\n"
  {
    CutAppended(line, "\n", k);
    CutAppended(line, "\n", k + 1);
    if k + 1 < |line| {
      assert line[k + 1] in line;
    }
  }

  lemma {:induction false} SpacePieces(line: string)
    requires '\n' !in line && AllSpace(line)
    ensures forall p :: p in SplitLines(line + "\n") ==> Strip(p) == ""
    decreases |line|
  {
    var k := LineEnd(line);
    if k == |line| {
      assert forall c | c in line :: !IsBreak(c);
      SplitOneLine(line);
      StripEmptyIff(line);
    } else {
      SplitAtReturn(line, k);
      StripEmptyIff(line[..k]);
      if k + 1 < |line| {
        SpacePieces(line[k + 1..]);
      }
    }
  }
}
