/**
 * `parseSRT`: a line scanner over `split(/\r?\n/)` that turns numbered blocks
 * (index line, `start --> end` line, text lines) into lyric lines carrying the
 * start time and the trimmed text lines joined with newlines.
 */
module Srt {
  import opened Wrappers
  import opened Text
  import opened Digits
  import opened Lyrics

  // ---------------------------------------------------------------------------
  // The start-time pattern `(\d+):(\d+):(\d+),(\d+)`
  // ---------------------------------------------------------------------------

  /** The four groups the pattern captures, as digit strings. */
  datatype Stamp = Stamp(hours: string, minutes: string, seconds: string, millis: string)

  predicate ValidStamp(st: Stamp) {
    IsNumeral(st.hours) && IsNumeral(st.minutes) && IsNumeral(st.seconds) && IsNumeral(st.millis)
  }

  /** The text the pattern matched: `H:M:S,ms`. */
  function StampText(st: Stamp): string {
    st.hours + ":" + st.minutes + ":" + st.seconds + "," + st.millis
  }

  /** `parseInt(H) * 3600 + parseInt(M) * 60 + parseInt(S) + parseInt(ms) / 1000`. */
  function StampSeconds(st: Stamp): real
    requires ValidStamp(st)
  {
    (Value(st.hours) * 3600 + Value(st.minutes) * 60 + Value(st.seconds)) as real
      + Value(st.millis) as real / 1000.0
  }

  /** The length of the run of digits starting at `p`. */
  function DigitRun(s: string, p: nat): (n: nat)
    requires p <= |s|
    ensures p + n <= |s|
    ensures p + n == |s| || !IsDigit(s[p + n])
    decreases |s| - p
  {
    if p < |s| && IsDigit(s[p]) then 1 + DigitRun(s, p + 1) else 0
  }

  /** Everything `DigitRun` measures is a digit. */
  lemma {:induction false} DigitRunDigits(s: string, p: nat)
    requires p <= |s|
    ensures forall k :: p <= k < p + DigitRun(s, p) ==> IsDigit(s[k])
    decreases |s| - p
  {
    if p < |s| && IsDigit(s[p]) {
      DigitRunDigits(s, p + 1);
    }
  }

  /** A run of digits ended by a non-digit (or the end) is exactly what `DigitRun` measures. */
  lemma {:induction false} DigitRunExact(s: string, p: nat, n: nat)
    requires p + n <= |s|
    requires forall k :: p <= k < p + n ==> IsDigit(s[k])
    requires p + n == |s| || !IsDigit(s[p + n])
    ensures DigitRun(s, p) == n
    decreases n
  {
    if n > 0 {
      DigitRunExact(s, p + 1, n - 1);
    }
  }

  /** The positions just past each of the four groups of a match. */
  datatype Ends = Ends(q1: nat, q2: nat, q3: nat, q4: nat)

  /** The group ends of `st` when the match starts at `p`. */
  function GroupEnds(p: nat, st: Stamp): Ends {
    var q1 := p + |st.hours|;
    var q2 := q1 + 1 + |st.minutes|;
    var q3 := q2 + 1 + |st.seconds|;
    Ends(q1, q2, q3, q3 + 1 + |st.millis|)
  }

  /**
   * The declarative reading of the pattern at position `p`: the four numerals
   * stand at `p` separated by `:`, `:` and `,`, and the last one is not followed
   * by a digit (it is greedy; the first three end at a separator, so theirs is automatic).
   */
  predicate MatchesAt(s: string, p: nat, st: Stamp) {
    var e := GroupEnds(p, st);
    && ValidStamp(st)
    && e.q4 <= |s|
    && s[p..e.q1] == st.hours && s[e.q1] == ':'
    && s[e.q1 + 1..e.q2] == st.minutes && s[e.q2] == ':'
    && s[e.q2 + 1..e.q3] == st.seconds && s[e.q3] == ','
    && s[e.q3 + 1..e.q4] == st.millis
    && (e.q4 == |s| || !IsDigit(s[e.q4]))
  }

  /** Where a greedy `\d+` at `p` ends, provided it matched and `sep` follows it. */
  function GroupBefore(s: string, p: nat, sep: char): (q: Option<nat>)
    requires p <= |s|
    ensures q.Some? ==> q.value == p + DigitRun(s, p) && p < q.value < |s| && s[q.value] == sep
    ensures q.None? ==> DigitRun(s, p) == 0 || p + DigitRun(s, p) == |s| || s[p + DigitRun(s, p)] != sep
  {
    var e := p + DigitRun(s, p);
    if e == p || e >= |s| || s[e] != sep then None else Some(e)
  }

  /** The pattern tried at position `p` with greedy groups: where its groups end, if it matches. */
  function MatchEnds(s: string, p: nat): (e: Option<Ends>)
    requires p <= |s|
    ensures e.Some? ==> p < e.value.q1 < e.value.q2 < e.value.q3 < e.value.q4 <= |s|
  {
    var g1 := GroupBefore(s, p, ':');
    if g1.None? then None
    else
      var g2 := GroupBefore(s, g1.value + 1, ':');
      if g2.None? then None
      else
        var g3 := GroupBefore(s, g2.value + 1, ',');
        if g3.None? then None
        else
          var n := DigitRun(s, g3.value + 1);
          if n == 0 then None
          else Some(Ends(g1.value, g2.value, g3.value, g3.value + 1 + n))
  }

  /** The groups the pattern captures at position `p`. */
  function MatchAt(s: string, p: nat): (m: Option<Stamp>)
    requires p <= |s|
    ensures m.Some? <==> MatchEnds(s, p).Some?
    ensures m.Some? ==> ValidStamp(m.value)
  {
    MatchAtValid(s, p);
    match MatchEnds(s, p)
    case None => None
    case Some(e) => Some(Captured(s, p, e))
  }

  /** The four slices between the group ends. */
  function Captured(s: string, p: nat, e: Ends): Stamp
    requires p <= e.q1 < e.q2 < e.q3 < e.q4 <= |s|
  {
    Stamp(s[p..e.q1], s[e.q1 + 1..e.q2], s[e.q2 + 1..e.q3], s[e.q3 + 1..e.q4])
  }

  lemma MatchAtValid(s: string, p: nat)
    requires p <= |s|
    ensures MatchEnds(s, p).Some? ==> var e := MatchEnds(s, p).value;
      && IsNumeral(s[p..e.q1]) && IsNumeral(s[e.q1 + 1..e.q2])
      && IsNumeral(s[e.q2 + 1..e.q3]) && IsNumeral(s[e.q3 + 1..e.q4])
  {
    if MatchEnds(s, p).Some? {
      var e := MatchEnds(s, p).value;
      SliceDigits(s, p, e.q1);
      SliceDigits(s, e.q1 + 1, e.q2);
      SliceDigits(s, e.q2 + 1, e.q3);
      SliceDigits(s, e.q3 + 1, e.q4);
    }
  }

  lemma SliceDigits(s: string, a: nat, b: nat)
    requires a < b <= |s| && b - a <= DigitRun(s, a)
    ensures IsNumeral(s[a..b])
  {
    DigitRunDigits(s, a);
    assert forall k :: 0 <= k < b - a ==> s[a..b][k] == s[a + k];
  }

  /** What the matcher captures fits the declarative reading. */
  lemma MatchAtSound(s: string, p: nat)
    requires p <= |s|
    requires MatchAt(s, p).Some?
    ensures MatchesAt(s, p, MatchAt(s, p).value)
  {
    var e := MatchEnds(s, p).value;
    var st := MatchAt(s, p).value;
    assert st == Captured(s, p, e);
    assert GroupEnds(p, st) == e;
    MatchEndsSeparators(s, p);
  }

  lemma MatchEndsSeparators(s: string, p: nat)
    requires p <= |s| && MatchEnds(s, p).Some?
    ensures var e := MatchEnds(s, p).value;
      && s[e.q1] == ':' && s[e.q2] == ':' && s[e.q3] == ','
      && (e.q4 == |s| || !IsDigit(s[e.q4]))
  {
  }

  /** The matcher finds exactly the groups the declarative reading describes. */
  lemma MatchAtComplete(s: string, p: nat, st: Stamp)
    requires p <= |s|
    requires MatchesAt(s, p, st)
    ensures MatchAt(s, p) == Some(st)
  {
    var e := GroupEnds(p, st);
    MatchEndsComplete(s, p, st);
    MatchAtOfEnds(s, p, e);
    assert Captured(s, p, e) == st;
  }

  lemma MatchAtOfEnds(s: string, p: nat, e: Ends)
    requires p <= |s| && MatchEnds(s, p) == Some(e)
    ensures MatchAt(s, p) == Some(Captured(s, p, e))
  {
  }

  lemma MatchEndsComplete(s: string, p: nat, st: Stamp)
    requires p <= |s|
    requires MatchesAt(s, p, st)
    ensures MatchEnds(s, p) == Some(GroupEnds(p, st))
  {
    var e := GroupEnds(p, st);
    GroupExact(s, p, st.hours, ':');
    assert GroupBefore(s, p, ':') == Some(e.q1);
    GroupExact(s, e.q1 + 1, st.minutes, ':');
    assert GroupBefore(s, e.q1 + 1, ':') == Some(e.q2);
    GroupExact(s, e.q2 + 1, st.seconds, ',');
    assert GroupBefore(s, e.q2 + 1, ',') == Some(e.q3);
    MillisExact(s, e.q3 + 1, st.millis);
    MatchEndsOf(s, p, e);
  }

  lemma MatchEndsOf(s: string, p: nat, e: Ends)
    requires p <= |s| && e.q3 + 1 < e.q4
    requires GroupBefore(s, p, ':') == Some(e.q1)
    requires e.q1 < |s| && GroupBefore(s, e.q1 + 1, ':') == Some(e.q2)
    requires e.q2 < |s| && GroupBefore(s, e.q2 + 1, ',') == Some(e.q3)
    requires e.q3 < |s| && DigitRun(s, e.q3 + 1) == e.q4 - e.q3 - 1
    ensures MatchEnds(s, p) == Some(e)
  {
  }

  lemma MillisExact(s: string, p: nat, g: string)
    requires p + |g| <= |s| && s[p..p + |g|] == g && IsNumeral(g)
    requires p + |g| == |s| || !IsDigit(s[p + |g|])
    ensures DigitRun(s, p) == |g|
  {
    assert forall k :: p <= k < p + |g| ==> s[k] == g[k - p];
    DigitRunExact(s, p, |g|);
  }

  lemma GroupExact(s: string, p: nat, g: string, sep: char)
    requires p + |g| < |s| && s[p..p + |g|] == g && IsNumeral(g)
    requires s[p + |g|] == sep && !IsDigit(sep)
    ensures GroupBefore(s, p, sep) == Some(p + |g|)
  {
    assert forall k :: p <= k < p + |g| ==> s[k] == g[k - p];
    DigitRunExact(s, p, |g|);
  }

  /** Where the leftmost match starts and what it captured. */
  datatype Match = Match(at: nat, stamp: Stamp)

  /** The leftmost match at or after `p`. */
  function FindFrom(s: string, p: nat): (r: Option<Match>)
    requires p <= |s|
    ensures r.Some? ==> ValidStamp(r.value.stamp)
    decreases |s| - p
  {
    if p == |s| then None
    else match MatchAt(s, p)
      case Some(st) => Some(Match(p, st))
      case None => FindFrom(s, p + 1)
  }

  lemma FindFromSpec(s: string, p: nat)
    requires p <= |s|
    ensures var r := FindFrom(s, p);
      && (r.Some? ==> p <= r.value.at < |s| && MatchAt(s, r.value.at) == Some(r.value.stamp))
      && (r.Some? ==> forall q :: p <= q < r.value.at ==> MatchAt(s, q).None?)
      && (r.None? ==> forall q :: p <= q <= |s| ==> MatchAt(s, q).None?)
  {
    FindFromFound(s, p);
    FindFromFirst(s, p);
  }

  /** A match found from `p` is a match, at or after `p`. */
  lemma {:induction false} FindFromFound(s: string, p: nat)
    requires p <= |s|
    ensures FindFrom(s, p).Some? ==>
      p <= FindFrom(s, p).value.at < |s| && MatchAt(s, FindFrom(s, p).value.at) == Some(FindFrom(s, p).value.stamp)
    decreases |s| - p
  {
    if p == |s| {
      NoMatchAtEnd(s);
    } else if MatchAt(s, p).Some? {
      FindFromHit(s, p);
    } else {
      FindFromMiss(s, p);
      FindFromFound(s, p + 1);
    }
  }

  /** Nothing matches between `p` and the match found, nor anywhere from `p` when none is found. */
  lemma {:induction false} FindFromFirst(s: string, p: nat)
    requires p <= |s|
    ensures forall q :: p <= q <= |s| && (FindFrom(s, p).None? || q < FindFrom(s, p).value.at) ==> MatchAt(s, q).None?
    decreases |s| - p
  {
    if p == |s| {
      NoMatchAtEnd(s);
    } else if MatchAt(s, p).Some? {
      FindFromHit(s, p);
    } else {
      FindFromMiss(s, p);
      FindFromFirst(s, p + 1);
    }
  }

  lemma NoMatchAtEnd(s: string)
    ensures FindFrom(s, |s|).None? && MatchAt(s, |s|).None?
  {
    assert DigitRun(s, |s|) == 0;
  }

  lemma FindFromHit(s: string, p: nat)
    requires p < |s| && MatchAt(s, p).Some?
    ensures FindFrom(s, p) == Some(Match(p, MatchAt(s, p).value))
  {
  }

  lemma FindFromMiss(s: string, p: nat)
    requires p < |s| && MatchAt(s, p).None?
    ensures FindFrom(s, p) == FindFrom(s, p + 1)
  {
  }

  /** `s.match(/(\d+):(\d+):(\d+),(\d+)/)`: the leftmost match, if any. */
  function FindTimestamp(s: string): (r: Option<Match>)
    ensures r.Some? ==> ValidStamp(r.value.stamp)
  {
    FindFrom(s, 0)
  }

  /**
   * `FindTimestamp` finds a match exactly when the pattern matches somewhere,
   * and then the leftmost one: nothing matches at an earlier position.
   */
  lemma FindTimestampSpec(s: string)
    ensures var r := FindTimestamp(s);
      && (r.Some? ==> r.value.at < |s| && MatchesAt(s, r.value.at, r.value.stamp))
      && (r.Some? ==> forall q, st :: 0 <= q < r.value.at ==> !MatchesAt(s, q, st))
      && (r.None? ==> forall q, st :: 0 <= q <= |s| ==> !MatchesAt(s, q, st))
  {
    var r := FindFrom(s, 0);
    FindFromSpec(s, 0);
    forall q, st | 0 <= q <= |s| && MatchesAt(s, q, st)
      ensures MatchAt(s, q) == Some(st)
    {
      MatchAtComplete(s, q, st);
    }
    if r.Some? {
      MatchAtSound(s, r.value.at);
    }
  }

  // ---------------------------------------------------------------------------
  // The line scanner
  // ---------------------------------------------------------------------------

  const Arrow: string := "-->"

  predicate IsBlank(line: string) {
    Trim(line) == ""
  }

  /** `/^\d+$/.test(line.trim())`. */
  predicate IsIndexLine(line: string) {
    IsNumeral(Trim(line))
  }

  ghost predicate ContainsArrow(s: string) {
    exists k :: OccursAt(s, Arrow, k)
  }

  /** How many non-blank lines follow from `j` before a blank line or the end. */
  function TextRunLength(lines: seq<string>, j: nat): (n: nat)
    requires j <= |lines|
    ensures j + n <= |lines|
    decreases |lines| - j
  {
    if j == |lines| || IsBlank(lines[j]) then 0 else 1 + TextRunLength(lines, j + 1)
  }

  /** The run is exactly the non-blank lines up to the first blank line or the end. */
  lemma {:induction false} TextRunSpec(lines: seq<string>, j: nat)
    requires j <= |lines|
    ensures var n := TextRunLength(lines, j);
      && (forall k :: j <= k < j + n ==> !IsBlank(lines[k]))
      && (j + n == |lines| || IsBlank(lines[j + n]))
    decreases |lines| - j
  {
    if j < |lines| && !IsBlank(lines[j]) {
      TextRunSpec(lines, j + 1);
    }
  }

  function TrimAll(ls: seq<string>): (r: seq<string>)
    ensures |r| == |ls| && forall k :: 0 <= k < |ls| ==> r[k] == Trim(ls[k])
  {
    seq(|ls|, k requires 0 <= k < |ls| => Trim(ls[k]))
  }

  /** `textLines.join('\n')` over the trimmed text lines. */
  function CueText(textLines: seq<string>): string {
    JoinWith(TrimAll(textLines), "\n")
  }

  /** What one pass of the scanner's loop does at cursor `i`. */
  datatype Step = Skip(next: nat) | Emit(next: nat, line: LyricLine)

  /** One pass of the loop at cursor `i`; it always advances. */
  function StepAt(lines: seq<string>, i: nat): (s: Step)
    requires i < |lines|
    ensures s.next > i
  {
    if Trim(lines[i]) == "" then Skip(i + 1)
    else if !IsIndexLine(lines[i]) then Skip(i + 1)
    else
      if i + 1 >= |lines| || Trim(lines[i + 1]) == "" || IndexOf(Trim(lines[i + 1]), Arrow) == -1 then Skip(i + 2)
      else
        match FindTimestamp(Trim(lines[i + 1]))
        case None => Skip(i + 3)
        case Some(m) =>
          var n := TextRunLength(lines, i + 2);
          if n == 0 then Skip(i + 2)
          else
            Emit(i + 2 + n, LyricLine(StampSeconds(m.stamp), CueText(lines[i + 2..i + 2 + n]), None, false))
  }

  /** The block shape a step at `i` accepts: an index line, a time line holding `-->` and a start time, a text line. */
  ghost predicate BlockAt(lines: seq<string>, i: nat)
    requires i < |lines|
  {
    && IsIndexLine(lines[i])
    && i + 2 < |lines|
    && ContainsArrow(Trim(lines[i + 1]))
    && FindTimestamp(Trim(lines[i + 1])).Some?
    && !IsBlank(lines[i + 2])
  }

  /** A time line that is not blank and contains `-->` is exactly one the scanner's `indexOf` test accepts. */
  lemma ArrowTest(line: string)
    ensures (Trim(line) == "" || IndexOf(Trim(line), Arrow) == -1) <==> !ContainsArrow(Trim(line))
  {
    IndexOfSpec(Trim(line), Arrow);
    if ContainsArrow(Trim(line)) {
      var k :| OccursAt(Trim(line), Arrow, k);
      assert Trim(line) != "";
    }
  }

  /** A step emits exactly when it stands on a well-formed block. */
  lemma StepEmitsIff(lines: seq<string>, i: nat)
    requires i < |lines|
    ensures StepAt(lines, i).Emit? <==> BlockAt(lines, i)
  {
    if IsIndexLine(lines[i]) && i + 1 < |lines| {
      ArrowTest(lines[i + 1]);
      assert Trim(lines[i]) != "";
      if i + 2 < |lines| {
        assert (TextRunLength(lines, i + 2) == 0) <==> IsBlank(lines[i + 2]);
      }
    }
  }

  /**
   * An emitting step reads the start time off the time line, takes the run of
   * non-blank lines after it (see `TextRunLength`) as the text, trimmed and
   * joined with newlines, and resumes just past that run.
   */
  lemma StepEmitShape(lines: seq<string>, i: nat)
    requires i < |lines| && StepAt(lines, i).Emit?
    ensures i + 2 < |lines| && FindTimestamp(Trim(lines[i + 1])).Some?
    ensures var n := TextRunLength(lines, i + 2);
      && n > 0
      && StepAt(lines, i).next == i + 2 + n
      && StepAt(lines, i).line == LyricLine(
           StampSeconds(FindTimestamp(Trim(lines[i + 1])).value.stamp),
           CueText(lines[i + 2..i + 2 + n]), None, false)
  {
    StepEmitNext(lines, i);
    StepEmitLine(lines, i);
  }

  lemma StepEmitNext(lines: seq<string>, i: nat)
    requires i < |lines| && StepAt(lines, i).Emit?
    ensures i + 2 < |lines| && FindTimestamp(Trim(lines[i + 1])).Some?
    ensures var n := TextRunLength(lines, i + 2); n > 0 && StepAt(lines, i).next == i + 2 + n
  {
  }

  lemma StepEmitLine(lines: seq<string>, i: nat)
    requires i < |lines| && StepAt(lines, i).Emit?
    requires i + 2 < |lines| && FindTimestamp(Trim(lines[i + 1])).Some?
    requires i + 2 + TextRunLength(lines, i + 2) == StepAt(lines, i).next
    ensures StepAt(lines, i).line == LyricLine(
      StampSeconds(FindTimestamp(Trim(lines[i + 1])).value.stamp),
      CueText(lines[i + 2..i + 2 + TextRunLength(lines, i + 2)]), None, false)
  {
  }

  /**
   * The skip quirk: when the line after an index line holds `-->` but no start
   * time, the step also skips the line after that one.
   */
  lemma StepSkipQuirk(lines: seq<string>, i: nat)
    requires i + 1 < |lines| && IsIndexLine(lines[i])
    requires ContainsArrow(Trim(lines[i + 1])) && FindTimestamp(Trim(lines[i + 1])).None?
    ensures StepAt(lines, i) == Skip(i + 3)
  {
    ArrowTest(lines[i + 1]);
    assert Trim(lines[i]) != "";
  }

  /** A line that is not an index line (blank lines included) is skipped on its own. */
  lemma StepSkipsNonIndex(lines: seq<string>, i: nat)
    requires i < |lines| && !IsIndexLine(lines[i])
    ensures StepAt(lines, i) == Skip(i + 1)
  {
  }

  /** An index line followed by no line, or by one without `-->`, is skipped together with that line. */
  lemma StepSkipsBadTimeLine(lines: seq<string>, i: nat)
    requires i < |lines| && IsIndexLine(lines[i])
    requires i + 1 < |lines| ==> !ContainsArrow(Trim(lines[i + 1]))
    ensures StepAt(lines, i) == Skip(i + 2)
  {
    assert Trim(lines[i]) != "";
    if i + 1 < |lines| {
      ArrowTest(lines[i + 1]);
    }
  }

  /** A block whose time line is followed by a blank line or the end emits nothing. */
  lemma StepSkipsEmptyText(lines: seq<string>, i: nat)
    requires i + 1 < |lines| && IsIndexLine(lines[i])
    requires ContainsArrow(Trim(lines[i + 1])) && FindTimestamp(Trim(lines[i + 1])).Some?
    requires i + 2 == |lines| || IsBlank(lines[i + 2])
    ensures StepAt(lines, i) == Skip(i + 2)
  {
    assert Trim(lines[i]) != "";
    ArrowTest(lines[i + 1]);
    assert TextRunLength(lines, i + 2) == 0;
  }

  lemma StepEmitAt(lines: seq<string>, i: nat, m: Match)
    requires i + 2 < |lines| && Trim(lines[i]) != "" && IsIndexLine(lines[i])
    requires Trim(lines[i + 1]) != "" && IndexOf(Trim(lines[i + 1]), Arrow) != -1
    requires FindTimestamp(Trim(lines[i + 1])) == Some(m)
    requires TextRunLength(lines, i + 2) > 0
    ensures var n := TextRunLength(lines, i + 2);
      StepAt(lines, i) == Emit(i + 2 + n, LyricLine(StampSeconds(m.stamp), CueText(lines[i + 2..i + 2 + n]), None, false))
  {
    assert StepAt(lines, i).Emit?;
    StepEmitShape(lines, i);
  }

  /** The lines the scanner emits from cursor `i` on (the cursor may run past the end). */
  function ScanFrom(lines: seq<string>, i: nat): seq<LyricLine>
    decreases |lines| - i
  {
    if i >= |lines| then []
    else match StepAt(lines, i)
      case Skip(n) => ScanFrom(lines, n)
      case Emit(n, line) => [line] + ScanFrom(lines, n)
  }

  lemma ScanSkip(lines: seq<string>, i: nat, k: nat)
    requires i < |lines| && StepAt(lines, i) == Skip(k)
    ensures ScanFrom(lines, i) == ScanFrom(lines, k)
  {
  }

  lemma ScanEmit(lines: seq<string>, i: nat, k: nat, line: LyricLine)
    requires i < |lines| && StepAt(lines, i) == Emit(k, line)
    ensures ScanFrom(lines, i) == [line] + ScanFrom(lines, k)
  {
  }

  // ---------------------------------------------------------------------------
  // The scanner only looks forward
  // ---------------------------------------------------------------------------

  /** `Same(l1, i1, l2, i2)`: the lines from `i1` on in `l1` are the lines from `i2` on in `l2`. */
  predicate Same(l1: seq<string>, i1: nat, l2: seq<string>, i2: nat) {
    i1 <= |l1| && i2 <= |l2| && l1[i1..] == l2[i2..]
  }

  lemma SameAt(l1: seq<string>, i1: nat, l2: seq<string>, i2: nat, k: nat)
    requires Same(l1, i1, l2, i2) && i2 + k < |l2|
    ensures i1 + k < |l1| && l1[i1 + k] == l2[i2 + k]
  {
    assert l1[i1..][k] == l2[i2..][k];
  }

  lemma SameLater(l1: seq<string>, i1: nat, l2: seq<string>, i2: nat, k: nat)
    requires Same(l1, i1, l2, i2) && i2 + k <= |l2|
    ensures Same(l1, i1 + k, l2, i2 + k)
  {
    assert l1[i1 + k..] == l1[i1..][k..];
    assert l2[i2 + k..] == l2[i2..][k..];
  }

  lemma SameSlice(l1: seq<string>, i1: nat, l2: seq<string>, i2: nat, n: nat)
    requires Same(l1, i1, l2, i2) && i2 + n <= |l2|
    ensures i1 + n <= |l1| && l1[i1..i1 + n] == l2[i2..i2 + n]
  {
    assert l1[i1..i1 + n] == l1[i1..][..n];
    assert l2[i2..i2 + n] == l2[i2..][..n];
  }

  lemma {:induction false} TextRunSame(l1: seq<string>, i1: nat, l2: seq<string>, i2: nat)
    requires Same(l1, i1, l2, i2)
    ensures TextRunLength(l1, i1) == TextRunLength(l2, i2)
    decreases |l2| - i2
  {
    if i2 < |l2| {
      SameAt(l1, i1, l2, i2, 0);
      if !IsBlank(l2[i2]) {
        SameLater(l1, i1, l2, i2, 1);
        TextRunSame(l1, i1 + 1, l2, i2 + 1);
      }
    }
  }

  function Shift(s: Step, d: nat): Step {
    match s
    case Skip(n) => Skip(n + d)
    case Emit(n, line) => Emit(n + d, line)
  }

  /** A step depends only on the lines at and after the cursor. */
  lemma StepSame(l1: seq<string>, i1: nat, l2: seq<string>, i2: nat)
    requires Same(l1, i1, l2, i2) && i2 < |l2| && i2 <= i1
    ensures StepAt(l1, i1) == Shift(StepAt(l2, i2), i1 - i2)
  {
    SameAt(l1, i1, l2, i2, 0);
    if i2 + 1 < |l2| {
      SameAt(l1, i1, l2, i2, 1);
    } else {
      assert |l1| - i1 == |l2| - i2 by {
        assert |l1[i1..]| == |l2[i2..]|;
      }
    }
    if i2 + 2 < |l2| {
      SameAt(l1, i1, l2, i2, 2);
    }
    if !IsIndexLine(l2[i2]) {
      StepSkipsNonIndex(l2, i2);
      StepSkipsNonIndex(l1, i1);
    } else if i2 + 1 < |l2| ==> !ContainsArrow(Trim(l2[i2 + 1])) {
      SameBadTimeLine(l1, i1, l2, i2);
    } else if FindTimestamp(Trim(l2[i2 + 1])).None? {
      SameQuirk(l1, i1, l2, i2);
    } else if i2 + 2 == |l2| || IsBlank(l2[i2 + 2]) {
      SameEmptyText(l1, i1, l2, i2);
    } else {
      SameLater(l1, i1, l2, i2, 2);
      TextRunSame(l1, i1 + 2, l2, i2 + 2);
      SameSlice(l1, i1 + 2, l2, i2 + 2, TextRunLength(l2, i2 + 2));
      StepSameEmit(l1, i1, l2, i2);
    }
  }

  lemma SameBadTimeLine(l1: seq<string>, i1: nat, l2: seq<string>, i2: nat)
    requires i2 <= i1 && i1 < |l1| && i2 < |l2| && l1[i1] == l2[i2] && IsIndexLine(l2[i2])
    requires i2 + 1 < |l2| <==> i1 + 1 < |l1|
    requires i2 + 1 < |l2| ==> l1[i1 + 1] == l2[i2 + 1] && !ContainsArrow(Trim(l2[i2 + 1]))
    ensures StepAt(l1, i1) == Shift(StepAt(l2, i2), i1 - i2)
  {
    StepSkipsBadTimeLine(l2, i2);
    StepSkipsBadTimeLine(l1, i1);
  }

  lemma SameQuirk(l1: seq<string>, i1: nat, l2: seq<string>, i2: nat)
    requires i2 <= i1 && i1 + 1 < |l1| && i2 + 1 < |l2|
    requires l1[i1] == l2[i2] && l1[i1 + 1] == l2[i2 + 1] && IsIndexLine(l2[i2])
    requires ContainsArrow(Trim(l2[i2 + 1])) && FindTimestamp(Trim(l2[i2 + 1])).None?
    ensures StepAt(l1, i1) == Shift(StepAt(l2, i2), i1 - i2)
  {
    StepSkipQuirk(l2, i2);
    StepSkipQuirk(l1, i1);
  }

  lemma SameEmptyText(l1: seq<string>, i1: nat, l2: seq<string>, i2: nat)
    requires i2 <= i1 && i1 + 1 < |l1| && i2 + 1 < |l2|
    requires l1[i1] == l2[i2] && l1[i1 + 1] == l2[i2 + 1] && IsIndexLine(l2[i2])
    requires ContainsArrow(Trim(l2[i2 + 1])) && FindTimestamp(Trim(l2[i2 + 1])).Some?
    requires i2 + 2 == |l2| <==> i1 + 2 == |l1|
    requires i2 + 2 < |l2| ==> l1[i1 + 2] == l2[i2 + 2] && IsBlank(l2[i2 + 2])
    ensures StepAt(l1, i1) == Shift(StepAt(l2, i2), i1 - i2)
  {
    StepSkipsEmptyText(l2, i2);
    StepSkipsEmptyText(l1, i1);
  }

  /** Two emitting windows with the same lines emit the same cue. */
  lemma StepSameEmit(l1: seq<string>, i1: nat, l2: seq<string>, i2: nat)
    requires i2 + 2 < |l2| && IsIndexLine(l2[i2]) && ContainsArrow(Trim(l2[i2 + 1]))
    requires FindTimestamp(Trim(l2[i2 + 1])).Some? && !IsBlank(l2[i2 + 2])
    requires i1 + 2 < |l1| && l1[i1] == l2[i2] && l1[i1 + 1] == l2[i2 + 1] && l1[i1 + 2] == l2[i2 + 2]
    requires TextRunLength(l1, i1 + 2) == TextRunLength(l2, i2 + 2)
    requires var n := TextRunLength(l2, i2 + 2);
      l1[i1 + 2..i1 + 2 + n] == l2[i2 + 2..i2 + 2 + n]
    requires i2 <= i1
    ensures StepAt(l1, i1) == Shift(StepAt(l2, i2), i1 - i2)
  {
    var m := FindTimestamp(Trim(l2[i2 + 1])).value;
    ArrowTest(l2[i2 + 1]);
    assert Trim(l2[i2]) != "";
    StepEmitAt(l2, i2, m);
    StepEmitAt(l1, i1, m);
  }

  /** Scanning depends only on the lines at and after the cursor. */
  lemma {:induction false} ScanSame(l1: seq<string>, i1: nat, l2: seq<string>, i2: nat)
    requires Same(l1, i1, l2, i2) && i2 <= i1
    ensures ScanFrom(l1, i1) == ScanFrom(l2, i2)
    decreases |l2| - i2
  {
    if i2 < |l2| {
      SameAt(l1, i1, l2, i2, 0);
      StepSame(l1, i1, l2, i2);
      var n2 := StepAt(l2, i2).next;
      var n1 := StepAt(l1, i1).next;
      if n2 <= |l2| {
        SameLater(l1, i1, l2, i2, n2 - i2);
        ScanSame(l1, n1, l2, n2);
      } else {
        assert n1 > |l1|;
      }
    }
  }

  /** Scanning past a prefix is scanning the rest on its own. */
  lemma ScanShift(a: seq<string>, b: seq<string>)
    ensures ScanFrom(a + b, |a|) == ScanFrom(b, 0)
  {
    assert (a + b)[|a|..] == b;
    ScanSame(a + b, |a|, b, 0);
  }

  /** `parseSRT` as a function: nothing for an absent or empty text, else the scan of its lines. */
  function SrtLines(srtText: Option<string>): seq<LyricLine> {
    if srtText.None? || srtText.value == "" then [] else ScanFrom(SplitLines(srtText.value), 0)
  }

  /** `parseSRT`: nothing for an absent or empty text, else the loop over its lines. */
  method ParseSrt(srtText: Option<string>) returns (result: seq<LyricLine>)
    ensures result == SrtLines(srtText)
    ensures srtText.None? || srtText.value == "" ==> result == []
    ensures srtText.Some? ==> |result| <= IndexLineCount(SplitLines(srtText.value), 0)
    ensures forall k :: 0 <= k < |result| ==> WellFormedCue(result[k])
  {
    if srtText.None? || srtText.value == "" {
      return [];
    }
    var lines := SplitLines(srtText.value);
    result := ScanLines(lines);
    CountBound(lines, 0);
    CuesWellFormed(lines, 0);
  }

  /** The loop of `parseSRT`: one pass of its body per iteration, collecting what each pass pushes. */
  method ScanLines(lines: seq<string>) returns (result: seq<LyricLine>)
    ensures result == ScanFrom(lines, 0)
  {
    result := [];
    var i: nat := 0;
    while i < |lines|
      invariant result + ScanFrom(lines, i) == ScanFrom(lines, 0)
      decreases |lines| - i
    {
      var step := LoopBody(lines, i);
      if step.Emit? {
        result := result + [step.line];
      }
      i := step.next;
    }
  }

  /**
   * The body of `parseSRT`'s loop at cursor `i`: each `continue` becomes a
   * `Skip` to where the cursor stands, and a push becomes an `Emit`.
   */
  method LoopBody(lines: seq<string>, i: nat) returns (step: Step)
    requires i < |lines|
    ensures step == StepAt(lines, i)
  {
    if Trim(lines[i]) == "" {
      return Skip(i + 1);
    }
    if !IsIndexLine(lines[i]) {
      return Skip(i + 1);
    }
    if i + 1 >= |lines| || Trim(lines[i + 1]) == "" || IndexOf(Trim(lines[i + 1]), Arrow) == -1 {
      return Skip(i + 2);
    }
    var timeLine := Trim(lines[i + 1]);
    var timeMatch := FindTimestamp(timeLine);
    if timeMatch.None? {
      return Skip(i + 3);
    }
    var startTime := StampSeconds(timeMatch.value.stamp);
    var textLines, next := ReadTextLines(lines, i + 2);
    if |textLines| > 0 {
      StepEmitAt(lines, i, timeMatch.value);
      assert next == i + 2 + TextRunLength(lines, i + 2);
      assert JoinWith(textLines, "\n") == CueText(lines[i + 2..next]);
      assert StepAt(lines, i).line.text == JoinWith(textLines, "\n");
      assert StepAt(lines, i).line.time == startTime;
      assert StepAt(lines, i).next == next;
      return Emit(next, LyricLine(startTime, JoinWith(textLines, "\n"), None, false));
    }
    return Skip(next);
  }

  /** The inner loop of `parseSRT`: the trimmed text lines from `j` up to a blank line or the end. */
  method ReadTextLines(lines: seq<string>, j: nat) returns (textLines: seq<string>, i: nat)
    requires j <= |lines|
    ensures i == j + TextRunLength(lines, j)
    ensures textLines == TrimAll(lines[j..i])
  {
    TextRunSpec(lines, j);
    i := j;
    textLines := [];
    while i < |lines| && Trim(lines[i]) != ""
      invariant j <= i <= j + TextRunLength(lines, j)
      invariant textLines == TrimAll(lines[j..i])
      decreases |lines| - i
    {
      textLines := textLines + [Trim(lines[i])];
      i := i + 1;
    }
  }

  // ---------------------------------------------------------------------------
  // Properties of the scan
  // ---------------------------------------------------------------------------

  /** The number of index lines (all digits once trimmed) from `i` to the end. */
  function IndexLineCount(lines: seq<string>, i: nat): nat
    decreases |lines| - i
  {
    if i >= |lines| then 0 else (if IsIndexLine(lines[i]) then 1 else 0) + IndexLineCount(lines, i + 1)
  }

  lemma {:induction false} IndexLineCountAntitone(lines: seq<string>, i: nat, j: nat)
    requires i <= j
    ensures IndexLineCount(lines, j) <= IndexLineCount(lines, i)
    decreases j - i
  {
    if i < j {
      IndexLineCountAntitone(lines, i + 1, j);
    }
  }

  /** Each emitted line consumed its own index line, so there are at most as many lines as index lines. */
  lemma {:induction false} CountBound(lines: seq<string>, i: nat)
    ensures |ScanFrom(lines, i)| <= IndexLineCount(lines, i)
    decreases |lines| - i
  {
    if i < |lines| {
      var n := StepAt(lines, i).next;
      CountBound(lines, n);
      IndexLineCountAntitone(lines, i + 1, n);
    }
  }

  /**
   * What every emitted line looks like: no words, not an adlib, and its text
   * splits on newlines into non-empty, already-trimmed lines (so it is never
   * empty and holds no blank line).
   */
  predicate WellFormedCue(c: LyricLine) {
    && c.words.None?
    && !c.isAdlib
    && var parts := SplitOn(c.text, '\n');
       forall k :: 0 <= k < |parts| ==> parts[k] != "" && Trim(parts[k]) == parts[k]
  }

  lemma {:induction false} CuesWellFormed(lines: seq<string>, i: nat)
    requires forall k :: 0 <= k < |lines| ==> '\n' !in lines[k]
    ensures forall k :: 0 <= k < |ScanFrom(lines, i)| ==> WellFormedCue(ScanFrom(lines, i)[k])
    decreases |lines| - i
  {
    if i < |lines| {
      var s := StepAt(lines, i);
      CuesWellFormed(lines, s.next);
      if s.Emit? {
        EmittedCueWellFormed(lines, i);
      }
    }
  }

  /** The cue a step emits is well formed, given lines without `\n` (as `SplitLines` delivers them). */
  lemma EmittedCueWellFormed(lines: seq<string>, i: nat)
    requires forall k :: 0 <= k < |lines| ==> '\n' !in lines[k]
    requires i < |lines| && StepAt(lines, i).Emit?
    ensures WellFormedCue(StepAt(lines, i).line)
  {
    var s := StepAt(lines, i);
    StepEmitShape(lines, i);
    var block := lines[i + 2..s.next];
    assert |block| >= 1 && s.line == LyricLine(s.line.time, CueText(block), None, false);
    assert forall k :: 0 <= k < |block| ==> '\n' !in block[k] && !IsBlank(block[k]) by {
      TextRunSpec(lines, i + 2);
      assert forall k :: 0 <= k < |block| ==> block[k] == lines[i + 2 + k];
    }
    CueTextClean(block);
  }

  /** Joining trimmed non-blank lines without `\n` gives text that splits back into those lines. */
  lemma CueTextClean(block: seq<string>)
    requires |block| >= 1
    requires forall k :: 0 <= k < |block| ==> '\n' !in block[k] && !IsBlank(block[k])
    ensures var parts := SplitOn(CueText(block), '\n');
      forall k :: 0 <= k < |parts| ==> parts[k] != "" && Trim(parts[k]) == parts[k]
  {
    var texts := TrimAll(block);
    TrimAllClean(block);
    assert CueText(block) == JoinWith(texts, ['\n']);
    SplitJoin(texts, '\n');
  }

  /** Trimming non-blank lines without `\n` gives non-empty, trimmed lines without `\n`. */
  lemma TrimAllClean(block: seq<string>)
    requires forall k :: 0 <= k < |block| ==> '\n' !in block[k] && !IsBlank(block[k])
    ensures var texts := TrimAll(block);
      forall k :: 0 <= k < |texts| ==> '\n' !in texts[k] && texts[k] != "" && Trim(texts[k]) == texts[k]
  {
    var texts := TrimAll(block);
    forall k | 0 <= k < |texts|
      ensures '\n' !in texts[k] && texts[k] != "" && Trim(texts[k]) == texts[k]
    {
      TrimKeepsOut(block[k], '\n');
      TrimIdempotent(block[k]);
    }
  }

  /**
   * The skip quirk in the scan: after an index line and a line holding `-->`
   * but no start time, the scan goes on two lines further, so the line right
   * after them is never read, even when it is the index line of a block
   * that would be emitted.
   */
  lemma QuirkSkipsLine(lines: seq<string>, i: nat)
    requires i + 1 < |lines| && IsIndexLine(lines[i])
    requires ContainsArrow(Trim(lines[i + 1])) && FindTimestamp(Trim(lines[i + 1])).None?
    ensures ScanFrom(lines, i) == ScanFrom(lines, i + 3)
  {
    StepSkipQuirk(lines, i);
    ScanSkip(lines, i, i + 3);
  }

  lemma BlockEmits(lines: seq<string>)
    requires |lines| > 0 && BlockAt(lines, 0)
    ensures ScanFrom(lines, 0) != []
  {
    StepEmitsIff(lines, 0);
    var s := StepAt(lines, 0);
    ScanEmit(lines, 0, s.next, s.line);
  }

  /**
   * A concrete instance: the second block of this file is well formed, yet
   * the malformed time line before it makes the whole scan come out empty.
   */
  lemma MalformedTimeLineSwallowsNextBlock()
    ensures ScanFrom(["1", "-->", "2", "00:00:01,000 --> 00:00:02,000", "hi"], 0) == []
    ensures ScanFrom(["2", "00:00:01,000 --> 00:00:02,000", "hi"], 0) != []
  {
    SampleScanEmpty(["1", "-->", "2", "00:00:01,000 --> 00:00:02,000", "hi"]);
    var rest := ["2", "00:00:01,000 --> 00:00:02,000", "hi"];
    SampleBlock(rest);
    BlockEmits(rest);
  }

  lemma SampleScanEmpty(lines: seq<string>)
    requires lines == ["1", "-->", "2", "00:00:01,000 --> 00:00:02,000", "hi"]
    ensures ScanFrom(lines, 0) == []
  {
    SampleQuirk(lines[0], lines[1]);
    SampleTimeLineNotIndex(lines[3]);
    SampleText(lines[4]);
    QuirkThenNothing(lines);
  }

  lemma QuirkThenNothing(lines: seq<string>)
    requires |lines| == 5 && IsIndexLine(lines[0])
    requires ContainsArrow(Trim(lines[1])) && FindTimestamp(Trim(lines[1])).None?
    requires !IsIndexLine(lines[3]) && !IsIndexLine(lines[4])
    ensures ScanFrom(lines, 0) == []
  {
    QuirkSkipsLine(lines, 0);
    ScanNonIndexTail(lines, 3);
  }

  lemma SampleQuirk(x: string, w: string)
    requires x == "1" && w == "-->"
    ensures IsIndexLine(x) && ContainsArrow(Trim(w)) && FindTimestamp(Trim(w)).None?
  {
    TrimOfTrimmed(x);
    TrimOfTrimmed(w);
    assert OccursAt(w, Arrow, 0);
    assert MatchAt(w, 0).None?;
    assert FindFrom(w, 3).None?;
  }

  lemma SampleBlock(rest: seq<string>)
    requires rest == ["2", "00:00:01,000 --> 00:00:02,000", "hi"]
    ensures |rest| == 3 && BlockAt(rest, 0)
  {
    SampleIndex(rest[0]);
    SampleTimeLine(rest[1]);
    SampleText(rest[2]);
  }

  lemma SampleIndex(line: string)
    requires line == "2"
    ensures IsIndexLine(line)
  {
    TrimOfTrimmed(line);
  }

  lemma SampleText(line: string)
    requires line == "hi"
    ensures !IsBlank(line) && !IsIndexLine(line)
  {
    TrimOfTrimmed(line);
  }

  lemma SampleTimeLineNotIndex(line: string)
    requires line == "00:00:01,000 --> 00:00:02,000"
    ensures !IsIndexLine(line)
  {
    TrimOfTrimmed(line);
    assert !IsDigit(line[2]);
  }

  /** From `i` on no line is an index line, so nothing is emitted. */
  lemma {:induction false} ScanNonIndexTail(lines: seq<string>, i: nat)
    requires forall k :: i <= k < |lines| ==> !IsIndexLine(lines[k])
    ensures ScanFrom(lines, i) == []
    decreases |lines| - i
  {
    if i < |lines| {
      StepSkipsNonIndex(lines, i);
      ScanSkip(lines, i, i + 1);
      ScanNonIndexTail(lines, i + 1);
    }
  }

  lemma SampleTimeLine(line: string)
    requires line == "00:00:01,000 --> 00:00:02,000"
    ensures ContainsArrow(Trim(line)) && FindTimestamp(Trim(line)).Some?
  {
    TrimOfTrimmed(line);
    assert OccursAt(line, Arrow, 13);
    SampleTimeLineMatches(line);
    FindFromHit(line, 0);
  }

  lemma SampleTimeLineMatches(line: string)
    requires line == "00:00:01,000 --> 00:00:02,000"
    ensures MatchAt(line, 0).Some?
  {
    assert IsDigit(line[0]) && IsDigit(line[1]) && line[2] == ':';
    assert IsDigit(line[3]) && IsDigit(line[4]) && line[5] == ':';
    assert IsDigit(line[6]) && IsDigit(line[7]) && line[8] == ',';
    assert IsDigit(line[9]);
    ClockPrefixMatches(line);
  }

  /** A line opening with `dd:dd:dd,d` matches the pattern at 0. */
  lemma ClockPrefixMatches(s: string)
    requires |s| >= 10
    requires IsDigit(s[0]) && IsDigit(s[1]) && s[2] == ':'
    requires IsDigit(s[3]) && IsDigit(s[4]) && s[5] == ':'
    requires IsDigit(s[6]) && IsDigit(s[7]) && s[8] == ','
    requires IsDigit(s[9])
    ensures MatchAt(s, 0).Some?
  {
    DigitRunExact(s, 0, 2);
    DigitRunExact(s, 3, 2);
    DigitRunExact(s, 6, 2);
    assert DigitRun(s, 9) > 0;
  }

  /** The text of a stamp, followed by anything that does not start with a digit, matches as that stamp. */
  lemma StampTextMatches(st: Stamp, rest: string)
    requires ValidStamp(st)
    requires rest == [] || !IsDigit(rest[0])
    ensures MatchesAt(StampText(st) + rest, 0, st)
  {
    var s := StampText(st) + rest;
    var e := GroupEnds(0, st);
    assert s == st.hours + [':'] + st.minutes + [':'] + st.seconds + [','] + st.millis + rest;
    assert s[..e.q1] == st.hours;
    assert s[e.q1] == ':';
    assert s[e.q1 + 1..e.q2] == st.minutes;
    assert s[e.q2] == ':';
    assert s[e.q2 + 1..e.q3] == st.seconds;
    assert s[e.q3] == ',';
    assert s[e.q3 + 1..e.q4] == st.millis;
    assert e.q4 < |s| ==> s[e.q4] == rest[0];
  }
}
