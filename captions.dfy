/**
  The caption filter of `app.py` (`filter_subtitles`) and the flattening
  that `download_subtitles` applies to its result.

  The filter scans the lines of an automatically generated WebVTT file.
  A line holding the cue-timing arrow `-->` (section 4.1 of the W3C WebVTT
  specification) is a cue header; after each header the first line that is
  non-empty and free of `<` and `>` is captured, and a captured line equal
  to the line captured just before it is dropped.

  The loop is proved against a declarative description: `Pending` says
  that the most recent header still waits for its line, `Captured` picks
  out the lines the scan takes, `Candidates` lists them in order and
  `Dedup` removes adjacent repeats.
 */
module Captions {
  import opened Text
  import opened Sequences

  /** The WebVTT cue-timing arrow. */
  const ARROW: string := "-->"

  /** Python's `"-->" in line`. */
  predicate IsHeader(line: string)
  {
    Contains(line, ARROW)
  }

  /** A line the filter is willing to capture: non-empty, no markup brackets. */
  predicate Qualifies(line: string)
  {
    line != "" && '<' !in line && '>' !in line
  }

  predicate NoneQualify(lines: seq<string>)
  {
    forall k | 0 <= k < |lines| :: !Qualifies(lines[k])
  }

  predicate SeenHeader(lines: seq<string>)
  {
    exists h | 0 <= h < |lines| :: IsHeader(lines[h])
  }

  /** Some header in `lines` is followed by no qualifying line: the cue
      opened last still waits for its line. */
  predicate Pending(lines: seq<string>)
  {
    exists h | 0 <= h < |lines| :: IsHeader(lines[h]) && NoneQualify(lines[h + 1..])
  }

  /** Line `j` is the first qualifying line after the most recent header. */
  predicate Captured(lines: seq<string>, j: int)
    requires 0 <= j < |lines|
  {
    Qualifies(lines[j]) && Pending(lines[..j])
  }

  /** The captured lines, in input order. */
  function Candidates(lines: seq<string>): seq<string>
  {
    if lines == [] then []
    else
      var j := |lines| - 1;
      Candidates(lines[..j]) + (if Captured(lines, j) then [lines[j]] else [])
  }

  /** The lines `filter_subtitles` keeps from the stripped input lines. */
  function Kept(lines: seq<string>): seq<string>
  {
    Dedup(Candidates(lines))
  }

  function StripEach(raw: seq<string>): seq<string>
  {
    seq(|raw|, k requires 0 <= k < |raw| => Strip(raw[k]))
  }

  /** The lines the filter's loop looks at: the stripped document split at
      `\n`, each line stripped again. */
  function CueLines(doc: string): seq<string>
  {
    StripEach(Split(Strip(doc), '\n'))
  }

  /** `filter_subtitles`: split the stripped document at `\n`, scan the
      lines, join the kept ones with `\n`. */
  method FilterSubtitles(subtitleStr: string) returns (filtered: string)
    ensures filtered == Join(Kept(CueLines(subtitleStr)), "\n")
  {
    var lines := Split(Strip(subtitleStr), '\n');
    var contentLines := ScanCueLines(lines);
    filtered := Join(contentLines, "\n");
  }

  /** The loop of `filter_subtitles`: the flags `pastHeader` and
      `captureNext` and the list of kept lines, one line at a time. */
  method ScanCueLines(lines: seq<string>) returns (contentLines: seq<string>)
    ensures contentLines == Kept(StripEach(lines))
  {
    var pastHeader := false;
    contentLines := [];
    var captureNext := false;
    for k := 0 to |lines|
      invariant Scanned(StripEach(lines)[..k], pastHeader, captureNext, contentLines)
    {
      var line := Strip(lines[k]);
      ScanLine(lines, k, pastHeader, captureNext, contentLines);

      if IsHeader(line) {
        pastHeader := true;
        captureNext := true;
        continue;
      }

      if !pastHeader {
        continue;
      }

      if captureNext && Qualifies(line) {
        if contentLines == [] || contentLines[|contentLines| - 1] != line {
          contentLines := contentLines + [line];
        }
        captureNext := false;
      }
    }
    assert StripEach(lines)[..|lines|] == StripEach(lines);
  }

  /** The post-processing of `download_subtitles`:
      `.replace('\n', ' ').replace('\r', '')`. */
  function Flatten(s: string): (r: string)
    ensures '\n' !in r && '\r' !in r
    ensures |r| <= |s|
  {
    var t := ReplaceChar(s, '\n', ' ');
    assert forall k | 0 <= k < |t| :: t[k] != '\n';
    RemoveCharKeeps(t, '\r', '\n');
    RemoveChar(t, '\r')
  }

  /** The transcript `download_subtitles` returns for a caption file. */
  function Transcript(doc: string): string
  {
    Flatten(Join(Kept(CueLines(doc)), "\n"))
  }

  /** `download_subtitles` once the file has been read: filter, then flatten. */
  method CleanSubtitles(content: string) returns (transcript: string)
    ensures transcript == Transcript(content)
    ensures '\n' !in transcript && '\r' !in transcript
  {
    var filtered := FilterSubtitles(content);
    transcript := Flatten(filtered);
  }

  // ---------------------------------------------------------------------
  // One step of the scan, in terms of the declarative description

  /** The scan's state after the lines `done`: `pastHeader` says a header
      has been seen, `captureNext` that the last cue still waits for its
      line, and `content` holds the kept lines. */
  predicate Scanned(done: seq<string>, pastHeader: bool, captureNext: bool, content: seq<string>)
  {
    && pastHeader == SeenHeader(done)
    && captureNext == Pending(done)
    && content == Kept(done)
  }

  /** The scan of line `k` of `lines`, stated on the prefixes the loop of
      `ScanCueLines` keeps. */
  lemma ScanLine(lines: seq<string>, k: int, pastHeader: bool, captureNext: bool, content: seq<string>)
    requires 0 <= k < |lines|
    requires Scanned(StripEach(lines)[..k], pastHeader, captureNext, content)
    ensures IsHeader(Strip(lines[k])) ==> Scanned(StripEach(lines)[..k + 1], true, true, content)
    ensures !IsHeader(Strip(lines[k])) && !pastHeader ==>
      Scanned(StripEach(lines)[..k + 1], pastHeader, captureNext, content)
    ensures !IsHeader(Strip(lines[k])) && pastHeader && captureNext && Qualifies(Strip(lines[k])) ==>
      Scanned(StripEach(lines)[..k + 1], pastHeader, false,
              if content == [] || content[|content| - 1] != Strip(lines[k]) then content + [Strip(lines[k])] else content)
    ensures !IsHeader(Strip(lines[k])) && pastHeader && !(captureNext && Qualifies(Strip(lines[k]))) ==>
      Scanned(StripEach(lines)[..k + 1], pastHeader, captureNext, content)
  {
    StripEachPrefix(lines, k);
    ScanStep(StripEach(lines)[..k], Strip(lines[k]), pastHeader, captureNext, content);
  }

  lemma StripEachPrefix(lines: seq<string>, k: int)
    requires 0 <= k < |lines|
    ensures StripEach(lines)[..k + 1] == StripEach(lines)[..k] + [Strip(lines[k])]
  {
    var cues := StripEach(lines);
    assert cues[k] == Strip(lines[k]);
    assert cues[..k + 1] == cues[..k] + [cues[k]];
  }

  /** One more line takes the scan from `done` to `done + [line]`, branch by
      branch as the loop body does. */
  lemma ScanStep(done: seq<string>, line: string, pastHeader: bool, captureNext: bool, content: seq<string>)
    requires Scanned(done, pastHeader, captureNext, content)
    ensures IsHeader(line) ==> Scanned(done + [line], true, true, content)
    ensures !IsHeader(line) && !pastHeader ==> Scanned(done + [line], pastHeader, captureNext, content)
    ensures !IsHeader(line) && pastHeader && captureNext && Qualifies(line) ==>
      Scanned(done + [line], pastHeader, false,
              if content == [] || content[|content| - 1] != line then content + [line] else content)
    ensures !IsHeader(line) && pastHeader && !(captureNext && Qualifies(line)) ==>
      Scanned(done + [line], pastHeader, captureNext, content)
  {
    SeenHeaderSnoc(done, line);
    PendingSnoc(done, line);
    if Pending(done) {
      var h :| 0 <= h < |done| && IsHeader(done[h]) && NoneQualify(done[h + 1..]);
    }
    HeaderNeverQualifies(line);
    var cands := Candidates(done);
    CandidatesSnoc(done, line);
    DedupSnoc(cands, line);
    DedupLast(cands);
    if Pending(done) && Qualifies(line) {
      assert Candidates(done + [line]) == cands + [line];
    } else {
      assert Candidates(done + [line]) == cands;
    }
  }

  /** The arrow ends in `>`, so a cue header never qualifies. */
  lemma HeaderNeverQualifies(line: string)
    ensures IsHeader(line) ==> '>' in line && !Qualifies(line)
  {
    forall i | 0 <= i <= |line| - |ARROW| && OccursAt(line, ARROW, i)
      ensures '>' in line
    {
      assert line[i + 2] == line[i..i + 3][2];
    }
  }

  lemma SeenHeaderSnoc(lines: seq<string>, x: string)
    ensures SeenHeader(lines + [x]) == (SeenHeader(lines) || IsHeader(x))
  {
    var ext := lines + [x];
    assert ext[|lines|] == x;
    assert forall h | 0 <= h < |lines| :: ext[h] == lines[h];
  }

  lemma NoneQualifySnoc(tail: seq<string>, x: string)
    ensures NoneQualify(tail + [x]) == (NoneQualify(tail) && !Qualifies(x))
  {
    assert (tail + [x])[|tail|] == x;
    assert forall k | 0 <= k < |tail| :: (tail + [x])[k] == tail[k];
  }

  /** A header opens a cue; a qualifying line closes it; any other line
      leaves it as it was. */
  lemma PendingSnoc(lines: seq<string>, x: string)
    ensures Pending(lines + [x]) == (IsHeader(x) || (Pending(lines) && !Qualifies(x)))
  {
    var ext := lines + [x];
    assert ext[|lines|] == x;
    if IsHeader(x) {
      assert ext[|lines| + 1..] == [];
    } else {
      if Pending(ext) {
        var h :| 0 <= h < |ext| && IsHeader(ext[h]) && NoneQualify(ext[h + 1..]);
        assert h < |lines|;
        assert ext[h + 1..] == lines[h + 1..] + [x];
        NoneQualifySnoc(lines[h + 1..], x);
        assert ext[h] == lines[h];
      }
      if Pending(lines) && !Qualifies(x) {
        var h :| 0 <= h < |lines| && IsHeader(lines[h]) && NoneQualify(lines[h + 1..]);
        assert ext[h + 1..] == lines[h + 1..] + [x];
        NoneQualifySnoc(lines[h + 1..], x);
        assert ext[h] == lines[h];
      }
    }
  }

  lemma CandidatesSnoc(lines: seq<string>, x: string)
    ensures Candidates(lines + [x])
         == Candidates(lines) + (if Pending(lines) && Qualifies(x) then [x] else [])
  {
    assert (lines + [x])[..|lines|] == lines;
  }

  lemma {:induction false} CandidatesSubseq(lines: seq<string>)
    ensures Subseq(Candidates(lines), lines)
    decreases |lines|
  {
    if lines != [] {
      var init, x := lines[..|lines| - 1], lines[|lines| - 1];
      assert lines == init + [x];
      CandidatesSubseq(init);
      CandidatesSnoc(init, x);
      if Pending(init) && Qualifies(x) {
        SubseqSnoc(Candidates(init), init, x);
      } else {
        assert Candidates(lines) == Candidates(init);
        SubseqExtend(Candidates(init), init, x);
      }
    }
  }

  // ---------------------------------------------------------------------
  // What the filter promises

  lemma {:induction false} CandidatesQualify(lines: seq<string>)
    ensures forall k | 0 <= k < |Candidates(lines)| :: Qualifies(Candidates(lines)[k])
    decreases |lines|
  {
    if lines != [] {
      var init, x := lines[..|lines| - 1], lines[|lines| - 1];
      assert lines == init + [x];
      CandidatesQualify(init);
      CandidatesSnoc(init, x);
    }
  }

  /** Every kept line is a line of the input, the kept lines come in input
      order, and none is empty, holds `<` or `>`, or is a cue header. */
  lemma KeptLinesClean(lines: seq<string>)
    ensures Subseq(Kept(lines), lines)
    ensures forall e | e in Kept(lines) :: e in lines && Qualifies(e) && !IsHeader(e)
  {
    var cands := Candidates(lines);
    CandidatesSubseq(lines);
    DedupSubseq(cands);
    SubseqTrans(Kept(lines), cands, lines);
    SubseqMembers(Kept(lines), lines);
    SubseqMembers(Kept(lines), cands);
    CandidatesQualify(lines);
    forall e | e in Kept(lines) ensures Qualifies(e) && !IsHeader(e) {
      assert e in cands;
      HeaderNeverQualifies(e);
    }
  }

  lemma NoAdjacentRepeats(lines: seq<string>)
    ensures forall k | 0 <= k < |Kept(lines)| - 1 :: Kept(lines)[k] != Kept(lines)[k + 1]
  {
    DedupNoAdjacentRepeats(Candidates(lines));
  }

  lemma {:induction false} HeaderFreeCapturesNothing(pre: seq<string>)
    requires !SeenHeader(pre)
    ensures Candidates(pre) == [] && !Pending(pre)
    decreases |pre|
  {
    if pre != [] {
      var init, x := pre[..|pre| - 1], pre[|pre| - 1];
      assert pre == init + [x];
      SeenHeaderSnoc(init, x);
      HeaderFreeCapturesNothing(init);
      CandidatesSnoc(init, x);
      PendingSnoc(init, x);
    }
  }

  lemma {:induction false} PreambleCandidates(pre: seq<string>, lines: seq<string>)
    requires !SeenHeader(pre)
    ensures Candidates(pre + lines) == Candidates(lines)
    ensures Pending(pre + lines) == Pending(lines)
    decreases |lines|
  {
    if lines == [] {
      assert pre + lines == pre;
      HeaderFreeCapturesNothing(pre);
    } else {
      var init, x := lines[..|lines| - 1], lines[|lines| - 1];
      assert lines == init + [x];
      assert pre + lines == (pre + init) + [x];
      PreambleCandidates(pre, init);
      CandidatesSnoc(pre + init, x);
      CandidatesSnoc(init, x);
      PendingSnoc(pre + init, x);
      PendingSnoc(init, x);
    }
  }

  /** Lines before the first cue header never contribute, whatever they hold. */
  lemma PreambleIgnored(pre: seq<string>, lines: seq<string>)
    requires !SeenHeader(pre)
    ensures Kept(pre + lines) == Kept(lines)
  {
    PreambleCandidates(pre, lines);
  }

  function HeaderCount(lines: seq<string>): nat
  {
    if lines == [] then 0
    else HeaderCount(lines[..|lines| - 1]) + (if IsHeader(lines[|lines| - 1]) then 1 else 0)
  }

  lemma {:induction false} CandidatesPerHeader(lines: seq<string>)
    ensures |Candidates(lines)| + (if Pending(lines) then 1 else 0) <= HeaderCount(lines)
    decreases |lines|
  {
    if lines != [] {
      var init, x := lines[..|lines| - 1], lines[|lines| - 1];
      assert lines == init + [x];
      CandidatesPerHeader(init);
      CandidatesSnoc(init, x);
      PendingSnoc(init, x);
    }
  }

  /** At most one line is kept per cue header. */
  lemma KeptAtMostHeaders(lines: seq<string>)
    ensures |Kept(lines)| <= HeaderCount(lines)
  {
    CandidatesPerHeader(lines);
    DedupSubseq(Candidates(lines));
    SubseqMembers(Dedup(Candidates(lines)), Candidates(lines));
  }

  // ---------------------------------------------------------------------
  // Well-formed cue blocks

  /** A cue block as automatic captions lay it out: the timing line, the
      line of text, then lines that are not headers (blank lines, repeated
      text with inline timing tags). */
  datatype Cue = Cue(timing: string, text: string, trailing: seq<string>)

  predicate WellFormed(c: Cue)
  {
    IsHeader(c.timing) && Qualifies(c.text) && !SeenHeader(c.trailing)
  }

  function CueBlockLines(cues: seq<Cue>): seq<string>
  {
    if cues == [] then []
    else
      CueBlockLines(cues[..|cues| - 1]) + Block(cues[|cues| - 1])
  }

  /** The lines of one cue block. */
  function Block(c: Cue): seq<string>
  {
    [c.timing, c.text] + c.trailing
  }

  function Texts(cues: seq<Cue>): seq<string>
  {
    seq(|cues|, k requires 0 <= k < |cues| => cues[k].text)
  }

  lemma {:induction false} TrailingIgnored(lines: seq<string>, tail: seq<string>)
    requires !Pending(lines) && !SeenHeader(tail)
    ensures Candidates(lines + tail) == Candidates(lines) && !Pending(lines + tail)
    decreases |tail|
  {
    if tail == [] {
      assert lines + tail == lines;
    } else {
      var init, x := tail[..|tail| - 1], tail[|tail| - 1];
      assert tail == init + [x];
      assert lines + tail == (lines + init) + [x];
      SeenHeaderSnoc(init, x);
      TrailingIgnored(lines, init);
      CandidatesSnoc(lines + init, x);
      PendingSnoc(lines + init, x);
    }
  }

  /** A preamble followed by well-formed cues yields the text line of every
      cue, in order. */
  lemma {:induction false} CuesCaptured(pre: seq<string>, cues: seq<Cue>)
    requires !SeenHeader(pre)
    requires forall k | 0 <= k < |cues| :: WellFormed(cues[k])
    ensures Candidates(pre + CueBlockLines(cues)) == Texts(cues)
    ensures !Pending(pre + CueBlockLines(cues))
    decreases |cues|
  {
    if cues == [] {
      assert pre + CueBlockLines(cues) == pre;
      HeaderFreeCapturesNothing(pre);
    } else {
      var init, c := cues[..|cues| - 1], cues[|cues| - 1];
      assert forall k | 0 <= k < |init| :: init[k] == cues[k];
      CuesCaptured(pre, init);
      var before := pre + CueBlockLines(init);
      assert pre + (CueBlockLines(init) + Block(c)) == before + Block(c);
      CueCaptured(before, c);
      assert Texts(cues) == Texts(init) + [c.text];
    }
  }

  /** One well-formed cue block adds its text line and leaves nothing
      pending, whatever came before it: its header sets the flag again. */
  lemma CueCaptured(before: seq<string>, c: Cue)
    requires WellFormed(c)
    ensures Candidates(before + Block(c)) == Candidates(before) + [c.text]
    ensures !Pending(before + Block(c))
  {
    assert before + Block(c) == ((before + [c.timing]) + [c.text]) + c.trailing;
    CandidatesSnoc(before, c.timing);
    PendingSnoc(before, c.timing);
    HeaderNeverQualifies(c.timing);
    HeaderNeverQualifies(c.text);
    CandidatesSnoc(before + [c.timing], c.text);
    PendingSnoc(before + [c.timing], c.text);
    TrailingIgnored((before + [c.timing]) + [c.text], c.trailing);
  }

  /** Cues with distinct neighbouring texts give texts without adjacent
      repeats. */
  lemma TextsNoRepeats(cues: seq<Cue>)
    requires forall k | 0 <= k < |cues| - 1 :: cues[k].text != cues[k + 1].text
    ensures forall k | 0 <= k < |Texts(cues)| - 1 :: Texts(cues)[k] != Texts(cues)[k + 1]
  {
  }

  /** With distinct neighbouring texts, every cue's text is kept. */
  lemma CuesKept(pre: seq<string>, cues: seq<Cue>)
    requires !SeenHeader(pre)
    requires forall k | 0 <= k < |cues| :: WellFormed(cues[k])
    requires forall k | 0 <= k < |cues| - 1 :: cues[k].text != cues[k + 1].text
    ensures Kept(pre + CueBlockLines(cues)) == Texts(cues)
  {
    TextsNoRepeats(cues);
    DedupFixedPoint(Texts(cues));
    CuesCaptured(pre, cues);
  }

  // ---------------------------------------------------------------------
  // The flattened transcript

  lemma FlattenConcat(a: string, b: string)
    ensures Flatten(a + b) == Flatten(a) + Flatten(b)
  {
    ReplaceCharConcat(a, b, '\n', ' ');
    RemoveCharConcat(ReplaceChar(a, '\n', ' '), ReplaceChar(b, '\n', ' '), '\r');
  }

  function RemoveCarriageReturns(xs: seq<string>): seq<string>
  {
    seq(|xs|, k requires 0 <= k < |xs| => RemoveChar(xs[k], '\r'))
  }

  /** Flattening a `\n`-joined list of lines joins the lines, without their
      `\r`, with single spaces. */
  lemma {:induction false} FlattenJoin(xs: seq<string>)
    requires forall k | 0 <= k < |xs| :: '\n' !in xs[k]
    ensures Flatten(Join(xs, "\n")) == Join(RemoveCarriageReturns(xs), " ")
    decreases |xs|
  {
    if |xs| >= 1 {
      FlattenLine(xs[0]);
      if |xs| > 1 {
        var rest := xs[1..];
        assert forall k | 0 <= k < |rest| :: rest[k] == xs[k + 1];
        FlattenJoin(rest);
        FlattenNewline(xs[0], Join(rest, "\n"));
        assert RemoveCarriageReturns(xs)[1..] == RemoveCarriageReturns(rest);
      }
    }
  }

  /** A line without `\n` only loses its `\r` characters. */
  lemma FlattenLine(x: string)
    requires '\n' !in x
    ensures Flatten(x) == RemoveChar(x, '\r')
  {
    var t := ReplaceChar(x, '\n', ' ');
    assert forall k | 0 <= k < |x| :: t[k] == x[k];
  }

  /** A `\n` between two parts becomes a single space. */
  lemma FlattenNewline(a: string, b: string)
    ensures Flatten(a + "\n" + b) == Flatten(a) + " " + Flatten(b)
  {
    FlattenConcat(a + "\n", b);
    FlattenConcat(a, "\n");
    assert ReplaceChar("\n", '\n', ' ') == " ";
  }

  /** Kept lines are among the document's stripped lines, are non-empty
      and stripped, and never hold a line break. */
  lemma KeptLinesOfDocument(doc: string)
    ensures forall e | e in Kept(CueLines(doc)) ::
      e in CueLines(doc) && e != "" && IsStripped(e) && '\n' !in e
  {
    var raw := Split(Strip(doc), '\n');
    var lines := CueLines(doc);
    KeptLinesClean(lines);
    forall e | e in Kept(lines)
      ensures e in lines && e != "" && IsStripped(e) && '\n' !in e
    {
      var k :| 0 <= k < |lines| && lines[k] == e;
      assert e == Strip(raw[k]);
      StripKeepsOut(raw[k], '\n');
    }
  }

  /** The transcript holds no line break; its lines are the kept lines,
      without `\r`, separated by single spaces; with no cue header it is
      empty. */
  lemma TranscriptShape(doc: string)
    ensures '\n' !in Transcript(doc) && '\r' !in Transcript(doc)
    ensures Transcript(doc) == Join(RemoveCarriageReturns(Kept(CueLines(doc))), " ")
    ensures !SeenHeader(CueLines(doc)) ==> Transcript(doc) == ""
  {
    var kept := Kept(CueLines(doc));
    KeptLinesOfDocument(doc);
    FlattenJoin(kept);
    if !SeenHeader(CueLines(doc)) {
      HeaderFreeCapturesNothing(CueLines(doc));
    }
  }
}
