/**
 * The current lyrics player (`LyricsPlayer.tsx`): `clamp`, the word wipe
 * without a zero-duration guard, the adlib-aware line window, and the index
 * of the main line the view scrolls to.
 */
module LyricsPlayer {
  import opened Wrappers
  import opened Lyrics
  import opened PopupPlayer

  // ---------------------------------------------------------------------------
  // clamp and word progress
  // ---------------------------------------------------------------------------

  /** `Math.min(Math.max(value, min), max)` on finite numbers. */
  function Clamp(v: real, lo: real, hi: real): (r: real)
    ensures lo <= hi ==> lo <= r <= hi
    ensures lo <= v <= hi ==> r == v
    ensures lo <= hi && v < lo ==> r == lo
    ensures v > hi ==> r == hi
  {
    Min(Max(v, lo), hi)
  }

  /** A JavaScript number as far as a quotient of two finite numbers can go. */
  datatype Num = Fin(x: real) | PosInf | NegInf | NaN

  /** `a / d` in IEEE arithmetic, rounding aside: dividing by zero gives an infinity, or NaN for `0 / 0`. */
  function Divide(a: real, d: real): (r: Num)
    ensures d != 0.0 ==> r == Fin(a / d)
    ensures r == NaN <==> a == 0.0 && d == 0.0
  {
    if d != 0.0 then Fin(a / d)
    else if a > 0.0 then PosInf
    else if a < 0.0 then NegInf
    else NaN
  }

  /** `Math.max(v, lo)`: NaN wins, infinities are absorbed or kept. */
  function MaxNum(v: Num, lo: real): Num {
    match v
    case Fin(x) => Fin(Max(x, lo))
    case PosInf => PosInf
    case NegInf => Fin(lo)
    case NaN => NaN
  }

  /** `Math.min(v, hi)`. */
  function MinNum(v: Num, hi: real): Num {
    match v
    case Fin(x) => Fin(Min(x, hi))
    case PosInf => Fin(hi)
    case NegInf => NegInf
    case NaN => NaN
  }

  function ClampNum(v: Num, lo: real, hi: real): Num {
    MinNum(MaxNum(v, lo), hi)
  }

  function Percent(v: Num): Num {
    if v.Fin? then Fin(v.x * 100.0) else v
  }

  /** The `Word` progress exactly as written: no guard against a word of zero duration. */
  function WordProgressAsWritten(w: WordTiming, t: real): (r: Num)
    ensures r.Fin? || r.NaN?
    ensures r.Fin? ==> 0.0 <= r.x <= 100.0
    ensures r.NaN? <==> w.end == w.start && t == w.start
  {
    Percent(ClampNum(Divide(t - w.start, w.end - w.start), 0.0, 1.0))
  }

  /** At the very instant a zero-length word starts, the wipe width is NaN. */
  lemma ZeroDurationIsNaN(w: WordTiming)
    requires w.end == w.start
    ensures WordProgressAsWritten(w, w.start) == NaN
  {
  }

  /**
   * The wipe as the older player draws it: a word without positive duration
   * is empty until it has passed and full afterwards, never `NaN`.
   */
  function WordProgress(w: WordTiming, t: real): (p: real)
    ensures 0.0 <= p <= 100.0
    ensures w.end - w.start <= 0.0 && t > w.end ==> p == 100.0
    ensures w.end - w.start <= 0.0 && t <= w.end ==> p == 0.0
  {
    var duration := w.end - w.start;
    if duration > 0.0 then Clamp((t - w.start) / duration, 0.0, 1.0) * 100.0
    else if t > w.end then 100.0
    else 0.0
  }

  /** How much of a word the older player draws white, in percent. */
  function Shown(look: Look): real {
    match look
    case Dim => 0.0
    case Lit => 100.0
    case Wipe(p) => p
  }

  /** On every word and at every time, the corrected wipe is what the older player shows on an active line. */
  lemma WordProgressMatchesOlderView(w: WordTiming, t: real)
    ensures WordProgress(w, t) == Shown(ViewWord(w, t, true).look)
  {
    if w.end > w.start {
      WordProgressAgrees(w, t);
    }
  }

  /** A zero-length word away from its instant: the unguarded formula is the corrected wipe. */
  lemma ZeroDurationAgrees(w: WordTiming, t: real)
    requires w.end == w.start && t != w.start
    ensures WordProgressAsWritten(w, t) == Fin(WordProgress(w, t))
  {
  }

  /**
   * For a word of positive duration the unguarded formula is a number, the
   * guarded one agrees with it, and both agree with the older player's wipe:
   * 0 up to the start, 100 from the end on.
   */
  lemma WordProgressAgrees(w: WordTiming, t: real)
    requires w.end > w.start
    ensures WordProgressAsWritten(w, t) == Fin(WordProgress(w, t))
    ensures WordProgress(w, t) == WipeProgress(w, t)
    ensures t <= w.start ==> WordProgress(w, t) == 0.0
    ensures t >= w.end ==> WordProgress(w, t) == 100.0
  {
    var d := w.end - w.start;
    var q := (t - w.start) / d;
    assert Clamp(q, 0.0, 1.0) * 100.0 == Max(0.0, Min(100.0, q * 100.0));
    WipeEnds(w, t);
  }

  // ---------------------------------------------------------------------------
  // Line windows
  // ---------------------------------------------------------------------------

  /**
   * Where a line's window closes, `None` for `Infinity`: an adlib closes at
   * its last word's end (two seconds after its start without words); a main
   * line closes when the next main line starts, if the caller says when.
   */
  function LineEnd(line: LyricLine, nextMainLineTime: Option<real>): (e: Option<real>)
    ensures line.isAdlib ==> e.Some?
    ensures !line.isAdlib ==> e == nextMainLineTime
  {
    if line.isAdlib then
      if line.words.Some? && |line.words.value| > 0 then Some(line.words.value[|line.words.value| - 1].end)
      else Some(line.time + 2.0)
    else nextMainLineTime
  }

  predicate HasStarted(line: LyricLine, t: real) {
    t >= line.time
  }

  predicate IsLineActive(line: LyricLine, t: real, nextMainLineTime: Option<real>) {
    var e := LineEnd(line, nextMainLineTime);
    t >= line.time && (e.None? || t < e.value)
  }

  /** An active line has started; an adlib's window does not depend on the next main line. */
  lemma ActiveWindow(line: LyricLine, t: real, next: Option<real>)
    ensures IsLineActive(line, t, next) ==> HasStarted(line, t)
    ensures line.isAdlib && line.words.Some? && |line.words.value| > 0 ==>
      (IsLineActive(line, t, next) <==> line.time <= t < line.words.value[|line.words.value| - 1].end)
    ensures line.isAdlib && (line.words.None? || line.words.value == []) ==>
      (IsLineActive(line, t, next) <==> line.time <= t < line.time + 2.0)
    ensures !line.isAdlib && next.None? ==> (IsLineActive(line, t, next) <==> HasStarted(line, t))
  {
  }

  /** The list renders every `Line` without `nextMainLineTime`. */
  predicate LineActiveAsRendered(lines: seq<LyricLine>, i: int, t: real)
    requires 0 <= i < |lines|
  {
    IsLineActive(lines[i], t, None)
  }

  /** As rendered, a main line, once started, stays lit for the rest of the song. */
  lemma StartedMainLineStaysActive(lines: seq<LyricLine>, i: int, t: real)
    requires 0 <= i < |lines| && !lines[i].isAdlib
    ensures LineActiveAsRendered(lines, i, t) <==> lines[i].time <= t
  {
  }

  /** Two main lines, one second apart: at 1.5 s both are lit. */
  lemma TwoMainLinesActive()
    ensures var lines := [LyricLine(0.0, "a", None, false), LyricLine(1.0, "b", None, false)];
      LineActiveAsRendered(lines, 0, 1.5) && LineActiveAsRendered(lines, 1, 1.5)
  {
  }

  /** The first main (non-adlib) line from `j` on. */
  function NextMainFrom(lines: seq<LyricLine>, j: nat): (r: Option<nat>)
    requires j <= |lines|
    ensures r.Some? ==> j <= r.value < |lines| && !lines[r.value].isAdlib
    decreases |lines| - j
  {
    if j == |lines| then None
    else if !lines[j].isAdlib then Some(j)
    else NextMainFrom(lines, j + 1)
  }

  lemma {:induction false} NextMainFromSpec(lines: seq<LyricLine>, j: nat)
    requires j <= |lines|
    ensures NextMainFrom(lines, j).Some? ==> forall k :: j <= k < NextMainFrom(lines, j).value ==> lines[k].isAdlib
    ensures NextMainFrom(lines, j).None? ==> forall k :: j <= k < |lines| ==> lines[k].isAdlib
    decreases |lines| - j
  {
    if j < |lines| && lines[j].isAdlib {
      NextMainFromSpec(lines, j + 1);
    }
  }

  /** The start of the next main line after line `i`, the value the comment above the window asks for. */
  function NextMainLineTime(lines: seq<LyricLine>, i: int): Option<real>
    requires 0 <= i < |lines|
  {
    match NextMainFrom(lines, i + 1)
    case None => None
    case Some(k) => Some(lines[k].time)
  }

  /** The window with `nextMainLineTime` passed: a main line lasts until the next main line starts. */
  predicate LineActiveCorrected(lines: seq<LyricLine>, i: int, t: real)
    requires 0 <= i < |lines|
  {
    IsLineActive(lines[i], t, NextMainLineTime(lines, i))
  }

  /** With the next main line's start passed, no two main lines of time-sorted lyrics are lit together. */
  lemma AtMostOneMainLineActive(lines: seq<LyricLine>, i: int, j: int, t: real)
    requires SortedByTime(lines)
    requires 0 <= i < j < |lines| && !lines[i].isAdlib && !lines[j].isAdlib
    ensures !(LineActiveCorrected(lines, i, t) && LineActiveCorrected(lines, j, t))
  {
    NextMainFromSpec(lines, i + 1);
    var k := NextMainFrom(lines, i + 1);
    assert k.Some? && k.value <= j;
    assert lines[k.value].time <= lines[j].time;
  }

  /** Without adlibs the corrected window is the older player's: line `i` is lit iff it is the active index. */
  lemma CorrectedWithoutAdlibs(lines: seq<LyricLine>, i: int, t: real)
    requires SortedByTime(lines) && 0 <= i < |lines|
    requires forall k :: 0 <= k < |lines| ==> !lines[k].isAdlib
    ensures LineActiveCorrected(lines, i, t) <==> i == FindActive(lines, t)
  {
    if i + 1 < |lines| {
      assert NextMainFrom(lines, i + 1) == Some(i + 1);
    }
    assert LineActiveCorrected(lines, i, t) <==> InWindow(lines, i, t);
    FindActiveSpec(lines, t);
    var r := FindActive(lines, t);
    if r != -1 && InWindow(lines, i, t) {
      WindowsDisjoint(lines, i, r, t);
    }
  }

  // ---------------------------------------------------------------------------
  // Scroll target
  // ---------------------------------------------------------------------------

  /** A main line whose `[time, next line's time)` window holds `t`; the next line may be an adlib. */
  predicate MainAt(lines: seq<LyricLine>, k: int, t: real)
    requires 0 <= k < |lines|
  {
    !lines[k].isAdlib && InWindow(lines, k, t)
  }

  function MainIndexFrom(lines: seq<LyricLine>, t: real, i: nat): (r: int)
    requires i <= |lines|
    ensures r == -1 || (i <= r < |lines| && !lines[r].isAdlib)
    decreases |lines| - i
  {
    if i == |lines| then -1
    else if MainAt(lines, i, t) then i
    else MainIndexFrom(lines, t, i + 1)
  }

  /** The `findIndex` the scroll effect runs. */
  function MainIndex(lines: seq<LyricLine>, t: real): int {
    MainIndexFrom(lines, t, 0)
  }

  lemma {:induction false} MainIndexFromSpec(lines: seq<LyricLine>, t: real, i: nat)
    requires i <= |lines|
    ensures var r := MainIndexFrom(lines, t, i);
      && (r == -1 <==> forall k :: i <= k < |lines| ==> !MainAt(lines, k, t))
      && (r != -1 ==> MainAt(lines, r, t) && forall k :: i <= k < r ==> !MainAt(lines, k, t))
    decreases |lines| - i
  {
    if i < |lines| && !MainAt(lines, i, t) {
      MainIndexFromSpec(lines, t, i + 1);
    }
  }

  /** The scroll target is the first main line whose window holds `t`, -1 when there is none; never an adlib. */
  lemma MainIndexSpec(lines: seq<LyricLine>, t: real)
    ensures var r := MainIndex(lines, t);
      && (r == -1 <==> forall k :: 0 <= k < |lines| ==> !MainAt(lines, k, t))
      && (r != -1 ==> 0 <= r < |lines| && !lines[r].isAdlib && InWindow(lines, r, t)
                      && forall k :: 0 <= k < r ==> !MainAt(lines, k, t))
  {
    MainIndexFromSpec(lines, t, 0);
  }

  /**
   * For time-sorted lyrics the scroll target is the active index of the older
   * player when that line is a main line, and -1 (no scroll) while an adlib's
   * window holds `t`.
   */
  lemma MainIndexSorted(lines: seq<LyricLine>, t: real)
    requires SortedByTime(lines)
    ensures var r := FindActive(lines, t);
      MainIndex(lines, t) == if r != -1 && !lines[r].isAdlib then r else -1
  {
    MainIndexSpec(lines, t);
    FindActiveSpec(lines, t);
    MainIndexIsActive(lines, t);
    var r := FindActive(lines, t);
    if r != -1 && !lines[r].isAdlib {
      assert MainAt(lines, r, t);
    }
  }

  lemma MainIndexIsActive(lines: seq<LyricLine>, t: real)
    requires SortedByTime(lines)
    ensures MainIndex(lines, t) != -1 ==> MainIndex(lines, t) == FindActive(lines, t)
  {
    MainIndexSpec(lines, t);
    FindActiveSpec(lines, t);
    var m := MainIndex(lines, t);
    if m != -1 {
      WindowsDisjoint(lines, m, FindActive(lines, t), t);
    }
  }

  /** Without adlibs the two players pick the same line, sorted or not. */
  lemma {:induction false} MainIndexWithoutAdlibs(lines: seq<LyricLine>, t: real, i: nat)
    requires i <= |lines|
    requires forall k :: 0 <= k < |lines| ==> !lines[k].isAdlib
    ensures MainIndexFrom(lines, t, i) == FindActiveFrom(lines, t, i)
    decreases |lines| - i
  {
    if i < |lines| {
      MainIndexWithoutAdlibs(lines, t, i + 1);
    }
  }
}
