/**
 * The inverse direction of `parseSRT`: well-formed SRT blocks rendered as
 * lines (index, `start --> stop`, text lines, blank separator) scan back to
 * exactly one lyric line per block, with the block's start time and text.
 */
module SrtRender {
  import opened Wrappers
  import opened Text
  import opened Digits
  import opened Lyrics
  import opened Srt

  /** One SRT cue as a subtitle editor writes it. */
  datatype Block = Block(index: string, start: Stamp, stop: Stamp, text: seq<string>)

  /** A text line the scanner keeps verbatim: non-empty, already trimmed, free of line breaks. */
  predicate CleanTextLine(line: string) {
    line != "" && Trim(line) == line && '\n' !in line && '\r' !in line
  }

  predicate WellFormedBlock(b: Block) {
    && IsNumeral(b.index)
    && ValidStamp(b.start)
    && ValidStamp(b.stop)
    && |b.text| >= 1
    && forall k :: 0 <= k < |b.text| ==> CleanTextLine(b.text[k])
  }

  function TimeLine(b: Block): string {
    StampText(b.start) + " --> " + StampText(b.stop)
  }

  function RenderBlock(b: Block): seq<string> {
    [b.index, TimeLine(b)] + b.text + [""]
  }

  function Render(bs: seq<Block>): seq<string>
    decreases |bs|
  {
    if bs == [] then [] else RenderBlock(bs[0]) + Render(bs[1..])
  }

  /** What the scanner should make of a block: its start time and its text lines joined with newlines. */
  function Cue(b: Block): LyricLine
    requires ValidStamp(b.start)
  {
    LyricLine(StampSeconds(b.start), JoinWith(b.text, "\n"), None, false)
  }

  function Cues(bs: seq<Block>): (r: seq<LyricLine>)
    requires forall k :: 0 <= k < |bs| ==> WellFormedBlock(bs[k])
    ensures |r| == |bs|
    decreases |bs|
  {
    if bs == [] then [] else assert WellFormedBlock(bs[0]); [Cue(bs[0])] + Cues(bs[1..])
  }

  // ---------------------------------------------------------------------------
  // One block
  // ---------------------------------------------------------------------------

  /** The time line of a block passes the scanner's `-->` test and yields the block's start stamp. */
  lemma TimeLineMatches(b: Block)
    requires WellFormedBlock(b)
    ensures Trim(TimeLine(b)) == TimeLine(b)
    ensures IndexOf(TimeLine(b), Arrow) != -1
    ensures FindTimestamp(TimeLine(b)) == Some(Match(0, b.start))
  {
    var t := TimeLine(b);
    var rest := " --> " + StampText(b.stop);
    assert t == StampText(b.start) + rest;
    assert t[0] == b.start.hours[0];
    assert t[|t| - 1] == b.stop.millis[|b.stop.millis| - 1];
    TrimOfTrimmed(t);
    var k := |StampText(b.start)| + 1;
    assert t[k..k + 3] == Arrow;
    IndexOfSpec(t, Arrow);
    assert OccursAt(t, Arrow, k);
    StampTextMatches(b.start, rest);
    MatchAtComplete(t, 0, b.start);
  }

  lemma TextRunOfBlock(b: Block, rest: seq<string>)
    requires WellFormedBlock(b)
    ensures TextRunLength(RenderBlock(b) + rest, 2) == |b.text|
  {
    var lines := RenderBlock(b) + rest;
    forall k | 2 <= k < 2 + |b.text|
      ensures !IsBlank(lines[k])
    {
      assert lines[k] == b.text[k - 2];
    }
    assert lines[2 + |b.text|] == "";
    TextRunExact(lines, 2, |b.text|);
  }

  lemma {:induction false} TextRunExact(lines: seq<string>, j: nat, n: nat)
    requires j + n <= |lines|
    requires forall k :: j <= k < j + n ==> !IsBlank(lines[k])
    requires j + n == |lines| || IsBlank(lines[j + n])
    ensures TextRunLength(lines, j) == n
    decreases n
  {
    if n > 0 {
      TextRunExact(lines, j + 1, n - 1);
    }
  }

  /** The first step over a rendered block emits the block's cue and lands on its blank separator. */
  lemma BlockStep(b: Block, rest: seq<string>)
    requires WellFormedBlock(b)
    ensures StepAt(RenderBlock(b) + rest, 0) == Emit(2 + |b.text|, Cue(b))
  {
    var lines := RenderBlock(b) + rest;
    var n := |b.text|;
    assert lines[0] == b.index && lines[1] == TimeLine(b) && lines[2..2 + n] == b.text;
    TrimOfTrimmed(b.index);
    TimeLineMatches(b);
    TextRunOfBlock(b, rest);
    assert TrimAll(b.text) == b.text;
    StepOfBlockLines(lines, b.index, TimeLine(b), b.start, b.text);
  }

  /** The step over lines laid out as a block: index line, time line, then exactly `texts` up to a blank line. */
  lemma StepOfBlockLines(lines: seq<string>, index: string, time: string, st: Stamp, texts: seq<string>)
    requires 2 + |texts| < |lines| && |texts| >= 1
    requires lines[0] == index && lines[1] == time && lines[2..2 + |texts|] == texts
    requires Trim(index) == index && IsNumeral(index)
    requires Trim(time) == time && IndexOf(time, Arrow) != -1
    requires FindTimestamp(time) == Some(Match(0, st))
    requires TextRunLength(lines, 2) == |texts| && TrimAll(texts) == texts
    ensures StepAt(lines, 0) == Emit(2 + |texts|, LyricLine(StampSeconds(st), JoinWith(texts, "\n"), None, false))
  {
    StepEmitAt(lines, 0, Match(0, st));
  }

  /** A prefix that emits one line and ends in a line that is no index line contributes just that line. */
  lemma ScanPrefix(r: seq<string>, rest: seq<string>, line: LyricLine)
    requires 2 <= |r| && StepAt(r + rest, 0) == Emit(|r| - 1, line) && !IsIndexLine(r[|r| - 1])
    ensures ScanFrom(r + rest, 0) == [line] + ScanFrom(rest, 0)
  {
    var lines := r + rest;
    var k := |r| - 1;
    ScanEmit(lines, 0, k, line);
    assert lines[k] == r[k];
    StepSkipsNonIndex(lines, k);
    ScanSkip(lines, k, |r|);
    ScanShift(r, rest);
  }

  /** A rendered block, whatever follows it, scans to its cue and then to whatever follows. */
  lemma ScanBlock(b: Block, rest: seq<string>)
    requires WellFormedBlock(b)
    ensures ScanFrom(RenderBlock(b) + rest, 0) == [Cue(b)] + ScanFrom(rest, 0)
  {
    var r := RenderBlock(b);
    assert |r| == 3 + |b.text| && r[|r| - 1] == "";
    BlockStep(b, rest);
    ScanPrefix(r, rest, Cue(b));
  }

  // ---------------------------------------------------------------------------
  // The round trip
  // ---------------------------------------------------------------------------

  /** Rendered blocks scan back to one cue per block, in order. */
  lemma {:induction false} ScanRender(bs: seq<Block>)
    requires forall k :: 0 <= k < |bs| ==> WellFormedBlock(bs[k])
    ensures ScanFrom(Render(bs), 0) == Cues(bs)
    decreases |bs|
  {
    if bs != [] {
      ScanBlock(bs[0], Render(bs[1..]));
      ScanRender(bs[1..]);
    }
  }

  lemma {:induction false} RenderLinesClean(bs: seq<Block>)
    requires forall k :: 0 <= k < |bs| ==> WellFormedBlock(bs[k])
    ensures forall k :: 0 <= k < |Render(bs)| ==> '\n' !in Render(bs)[k] && '\r' !in Render(bs)[k]
    decreases |bs|
  {
    if bs != [] {
      RenderLinesClean(bs[1..]);
      var b := bs[0];
      var r := RenderBlock(b);
      forall k | 0 <= k < |r|
        ensures '\n' !in r[k] && '\r' !in r[k]
      {
        if k == 0 {
          assert forall c :: c in b.index ==> IsDigit(c);
        } else if k == 1 {
          assert forall c :: c in StampText(b.start) ==> IsDigit(c) || c == ':' || c == ',' by {
            StampTextChars(b.start);
          }
          assert forall c :: c in StampText(b.stop) ==> IsDigit(c) || c == ':' || c == ',' by {
            StampTextChars(b.stop);
          }
        } else if k < |r| - 1 {
          assert r[k] == b.text[k - 2];
        }
      }
      var all := r + Render(bs[1..]);
      forall k | 0 <= k < |all|
        ensures '\n' !in all[k] && '\r' !in all[k]
      {
        if k >= |r| {
          assert all[k] == Render(bs[1..])[k - |r|];
        }
      }
    }
  }

  lemma StampTextChars(st: Stamp)
    requires ValidStamp(st)
    ensures forall c :: c in StampText(st) ==> IsDigit(c) || c == ':' || c == ','
  {
    assert forall c :: c in st.hours ==> IsDigit(c);
    assert forall c :: c in st.minutes ==> IsDigit(c);
    assert forall c :: c in st.seconds ==> IsDigit(c);
    assert forall c :: c in st.millis ==> IsDigit(c);
  }

  /** The whole file: blocks written out with newlines parse back to their cues. */
  lemma ParseRenderedSrt(bs: seq<Block>)
    requires forall k :: 0 <= k < |bs| ==> WellFormedBlock(bs[k])
    ensures SrtLines(Some(JoinWith(Render(bs), "\n"))) == Cues(bs)
  {
    if bs == [] {
      assert Render(bs) == [];
    } else {
      var lines := Render(bs);
      assert |lines| >= 2 by {
        assert lines == RenderBlock(bs[0]) + Render(bs[1..]);
      }
      RenderLinesClean(bs);
      SrtLinesOfJoined(lines);
      ScanRender(bs);
    }
  }

  /** Lines without line breaks, joined with newlines, come back as the scan of those lines. */
  lemma SrtLinesOfJoined(lines: seq<string>)
    requires |lines| >= 2
    requires forall k :: 0 <= k < |lines| ==> '\n' !in lines[k] && '\r' !in lines[k]
    ensures SrtLines(Some(JoinWith(lines, "\n"))) == ScanFrom(lines, 0)
  {
    var text := JoinWith(lines, "\n");
    assert text == lines[0] + "\n" + JoinWith(lines[1..], "\n");
    assert text != "" by {
      assert text[|lines[0]|] == '\n';
    }
    SplitLinesJoin(lines);
  }

  predicate StartsNoLater(b: Block, c: Block) {
    ValidStamp(b.start) && ValidStamp(c.start) && StampSeconds(b.start) <= StampSeconds(c.start)
  }

  /** Blocks in start-time order give lyrics in time order. */
  lemma {:induction false} CuesSorted(bs: seq<Block>)
    requires forall k :: 0 <= k < |bs| ==> WellFormedBlock(bs[k])
    requires forall i, j :: 0 <= i < j < |bs| ==> StartsNoLater(bs[i], bs[j])
    ensures SortedByTime(Cues(bs))
    decreases |bs|
  {
    if bs != [] {
      CuesSorted(bs[1..]);
      CuesTimes(bs);
    }
  }

  lemma {:induction false} CuesTimes(bs: seq<Block>)
    requires forall k :: 0 <= k < |bs| ==> WellFormedBlock(bs[k])
    ensures forall k :: 0 <= k < |bs| ==> Cues(bs)[k].time == StampSeconds(bs[k].start)
    decreases |bs|
  {
    if bs != [] {
      CuesTimes(bs[1..]);
      forall k | 0 <= k < |bs|
        ensures Cues(bs)[k].time == StampSeconds(bs[k].start)
      {
        if k > 0 {
          assert Cues(bs)[k] == Cues(bs[1..])[k - 1];
        }
      }
    }
  }
}
