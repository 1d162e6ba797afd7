/**
 * The older lyrics player (`ProfilePopup.tsx`): the per-word passed / future /
 * current split and wipe progress, the active / past / upcoming status of a
 * line and its memo comparator, the song-change transition, and the search
 * for the line whose window holds the current time.
 */
module PopupPlayer {
  import opened Wrappers
  import opened Lyrics

  // ---------------------------------------------------------------------------
  // Words
  // ---------------------------------------------------------------------------

  predicate IsPassed(w: WordTiming, t: real) {
    t > w.end
  }

  predicate IsFuture(w: WordTiming, t: real) {
    t < w.start
  }

  predicate IsCurrent(w: WordTiming, t: real) {
    !IsPassed(w, t) && !IsFuture(w, t)
  }

  /** For a word that does not end before it starts, exactly one of the three holds. */
  lemma PhaseExclusive(w: WordTiming, t: real)
    requires w.start <= w.end
    ensures IsPassed(w, t) || IsFuture(w, t) || IsCurrent(w, t)
    ensures !(IsPassed(w, t) && IsFuture(w, t))
  {
  }

  /** For a word that ends before it starts, a time between the two is both passed and future. */
  lemma InvertedWordBoth(w: WordTiming, t: real)
    requires w.end < t < w.start
    ensures IsPassed(w, t) && IsFuture(w, t) && !IsCurrent(w, t)
  {
  }

  function Min(a: real, b: real): real {
    if a <= b then a else b
  }

  function Max(a: real, b: real): real {
    if a >= b then a else b
  }

  /** Width of the white overlay of the current word, in percent; a word without duration gets none. */
  function WipeProgress(w: WordTiming, t: real): (p: real)
    ensures 0.0 <= p <= 100.0
    ensures w.end - w.start <= 0.0 ==> p == 0.0
  {
    var duration := w.end - w.start;
    if duration > 0.0 then Max(0.0, Min(100.0, (t - w.start) / duration * 100.0)) else 0.0
  }

  /** The wipe starts empty, ends full, and never shrinks while time moves forward. */
  lemma WipeMonotone(w: WordTiming, t1: real, t2: real)
    requires t1 <= t2
    ensures WipeProgress(w, t1) <= WipeProgress(w, t2)
  {
    var duration := w.end - w.start;
    if duration > 0.0 {
      assert (t1 - w.start) / duration <= (t2 - w.start) / duration by {
        DivMonotone(t1 - w.start, t2 - w.start, duration);
      }
    }
  }

  lemma DivMonotone(a: real, b: real, d: real)
    requires a <= b && d > 0.0
    ensures a / d <= b / d
  {
    assert b / d - a / d == (b - a) / d;
  }

  lemma WipeEnds(w: WordTiming, t: real)
    requires w.end > w.start
    ensures t <= w.start ==> WipeProgress(w, t) == 0.0
    ensures t >= w.end ==> WipeProgress(w, t) == 100.0
  {
    var duration := w.end - w.start;
    if t <= w.start {
      DivMonotone(t - w.start, 0.0, duration);
    }
    if t >= w.end {
      DivMonotone(duration, t - w.start, duration);
    }
  }

  /** How a word's text is coloured: dimmed, fully lit, or lit up to a percentage. */
  datatype Look = Dim | Lit | Wipe(progress: real)

  /** A drawn word: its text and its colouring. */
  datatype WordView = WordView(text: string, look: Look)

  function ViewWord(w: WordTiming, t: real, isLineActive: bool): (v: WordView)
    ensures v.text == w.text
    ensures !isLineActive ==> v.look == Dim
    ensures v.look.Wipe? <==> isLineActive && IsCurrent(w, t)
    ensures v.look == Lit <==> isLineActive && IsPassed(w, t)
    ensures v.look.Wipe? ==> v.look.progress == WipeProgress(w, t) && 0.0 <= v.look.progress <= 100.0
  {
    if !isLineActive then WordView(w.text, Dim)
    else if IsPassed(w, t) then WordView(w.text, Lit)
    else if IsFuture(w, t) then WordView(w.text, Dim)
    else WordView(w.text, Wipe(WipeProgress(w, t)))
  }

  /** The props the `Word` memo comparator looks at. */
  datatype WordProps = WordProps(word: WordTiming, currentTime: real, isLineActive: bool, slideDuration: real)

  /** The `Word` memo comparator: `true` means the previous rendering is kept. */
  function WordPropsEqual(prev: WordProps, next: WordProps): bool {
    if prev.slideDuration != next.slideDuration then false
    else if prev.isLineActive != next.isLineActive then false
    else if !prev.isLineActive && !next.isLineActive then true
    else prev.currentTime == next.currentTime
  }

  /** For an unchanged word, keeping the previous rendering is never stale. */
  lemma WordMemoSound(prev: WordProps, next: WordProps)
    requires prev.word == next.word
    requires WordPropsEqual(prev, next)
    ensures ViewWord(prev.word, prev.currentTime, prev.isLineActive)
         == ViewWord(next.word, next.currentTime, next.isLineActive)
    ensures prev.slideDuration == next.slideDuration
  {
  }

  /**
   * The comparator never looks at `word`: a `Word` of an inactive line that is
   * handed another word keeps drawing the old text.
   */
  lemma StaleWordKept()
    ensures var prev := WordProps(WordTiming("old", 1.0, 2.0), 0.0, false, 100.0);
      var next := WordProps(WordTiming("new", 3.0, 4.0), 0.0, false, 100.0);
      && WordPropsEqual(prev, next)
      && ViewWord(prev.word, prev.currentTime, prev.isLineActive)
         != ViewWord(next.word, next.currentTime, next.isLineActive)
  {
    var prev := WordProps(WordTiming("old", 1.0, 2.0), 0.0, false, 100.0);
    var next := WordProps(WordTiming("new", 3.0, 4.0), 0.0, false, 100.0);
    assert ViewWord(prev.word, 0.0, false).text == "old";
    assert ViewWord(next.word, 0.0, false).text == "new";
  }

  /** The comparator with the word itself compared as well. */
  function WordPropsEqualFixed(prev: WordProps, next: WordProps): bool {
    prev.word == next.word && WordPropsEqual(prev, next)
  }

  /** Whenever the corrected comparator keeps the previous rendering, it is the one the new props would draw. */
  lemma FixedWordMemoSound(prev: WordProps, next: WordProps)
    requires WordPropsEqualFixed(prev, next)
    ensures ViewWord(prev.word, prev.currentTime, prev.isLineActive)
         == ViewWord(next.word, next.currentTime, next.isLineActive)
    ensures prev.slideDuration == next.slideDuration
  {
    WordMemoSound(prev, next);
  }

  // ---------------------------------------------------------------------------
  // Lines
  // ---------------------------------------------------------------------------

  datatype LineStatus = Active | Past | Upcoming

  function Status(index: int, activeLineIndex: int): (s: LineStatus)
    ensures s == Active <==> index == activeLineIndex
    ensures s == Past <==> index < activeLineIndex
    ensures s == Upcoming <==> index > activeLineIndex
  {
    if index == activeLineIndex then Active
    else if index < activeLineIndex then Past
    else Upcoming
  }

  function Rank(s: LineStatus): nat {
    match s
    case Past => 0
    case Active => 1
    case Upcoming => 2
  }

  /** Along the list the statuses run past, then at most one active line, then upcoming. */
  lemma StatusOrdered(i: int, j: int, a: int)
    requires i < j
    ensures Rank(Status(i, a)) <= Rank(Status(j, a))
    ensures !(Status(i, a) == Active && Status(j, a) == Active)
  {
  }

  /** Words of a line that is not active are timed at 0. */
  function EffectiveTime(index: int, activeLineIndex: int, t: real): real {
    if index == activeLineIndex then t else 0.0
  }

  datatype LineBody = Words(views: seq<WordView>) | Plain(text: string)

  datatype LineView = LineView(status: LineStatus, body: LineBody)

  /** How `Line` draws line `index`: word by word when it has words, else its text. */
  function ViewLine(line: LyricLine, index: int, activeLineIndex: int, t: real): (v: LineView)
    ensures v.status == Status(index, activeLineIndex)
    ensures v.body.Words? <==> line.words.Some? && |line.words.value| > 0
    ensures v.body.Words? ==> |v.body.views| == |line.words.value|
    ensures v.body.Words? && index != activeLineIndex ==>
      forall k :: 0 <= k < |v.body.views| ==> v.body.views[k].look == Dim
  {
    var isActive := index == activeLineIndex;
    var et := EffectiveTime(index, activeLineIndex, t);
    if line.words.Some? && |line.words.value| > 0 then
      LineView(Status(index, activeLineIndex),
        Words(seq(|line.words.value|, k requires 0 <= k < |line.words.value| => ViewWord(line.words.value[k], et, isActive))))
    else LineView(Status(index, activeLineIndex), Plain(line.text))
  }

  /** The props the `Line` memo comparator looks at. */
  datatype LineProps = LineProps(line: LyricLine, index: int, activeLineIndex: int, currentTime: real, slideDuration: real)

  /** The `Line` memo comparator: `true` means the previous rendering is kept. */
  function LinePropsEqual(prev: LineProps, next: LineProps): bool {
    if prev.activeLineIndex != next.activeLineIndex
       && Status(prev.index, prev.activeLineIndex) != Status(next.index, next.activeLineIndex) then false
    else if prev.slideDuration != next.slideDuration then false
    else if prev.index == prev.activeLineIndex then prev.currentTime == next.currentTime
    else true
  }

  /** A change of status always re-renders the line (its index stays put: it is the list position). */
  lemma StatusChangeRerenders(prev: LineProps, next: LineProps)
    requires prev.index == next.index
    requires Status(prev.index, prev.activeLineIndex) != Status(next.index, next.activeLineIndex)
    ensures !LinePropsEqual(prev, next)
  {
  }

  /** For an unchanged line at the same position, keeping the previous rendering is never stale. */
  lemma LineMemoSound(prev: LineProps, next: LineProps)
    requires prev.line == next.line && prev.index == next.index
    requires LinePropsEqual(prev, next)
    ensures ViewLine(prev.line, prev.index, prev.activeLineIndex, prev.currentTime)
         == ViewLine(next.line, next.index, next.activeLineIndex, next.currentTime)
  {
    var s := Status(prev.index, prev.activeLineIndex);
    assert s == Status(next.index, next.activeLineIndex);
    if s == Active {
      assert prev.currentTime == next.currentTime;
    } else {
      assert EffectiveTime(prev.index, prev.activeLineIndex, prev.currentTime) == 0.0;
      assert EffectiveTime(next.index, next.activeLineIndex, next.currentTime) == 0.0;
    }
  }

  /**
   * The comparator never looks at `line`. Lines are keyed by song and
   * position, so when the 300 ms timer swaps in the new song's lyrics, line 7
   * stays upcoming (active index 5, then -1) and keeps the old song's text.
   */
  lemma StaleLineAfterSwap()
    ensures var prev := LineProps(LyricLine(10.0, "old", None, false), 7, 5, 3.0, 100.0);
      var next := LineProps(LyricLine(12.0, "new", None, false), 7, -1, 0.0, 100.0);
      && LinePropsEqual(prev, next)
      && ViewLine(prev.line, prev.index, prev.activeLineIndex, prev.currentTime)
         != ViewLine(next.line, next.index, next.activeLineIndex, next.currentTime)
  {
    var prev := LineProps(LyricLine(10.0, "old", None, false), 7, 5, 3.0, 100.0);
    var next := LineProps(LyricLine(12.0, "new", None, false), 7, -1, 0.0, 100.0);
    assert ViewLine(prev.line, 7, 5, 3.0).body == Plain("old");
    assert ViewLine(next.line, 7, -1, 0.0).body == Plain("new");
  }

  /** The comparator with the line and its position compared as well. */
  function LinePropsEqualFixed(prev: LineProps, next: LineProps): bool {
    prev.line == next.line && prev.index == next.index && LinePropsEqual(prev, next)
  }

  /** Whenever the corrected comparator keeps the previous rendering, it is the one the new props would draw. */
  lemma FixedLineMemoSound(prev: LineProps, next: LineProps)
    requires LinePropsEqualFixed(prev, next)
    ensures ViewLine(prev.line, prev.index, prev.activeLineIndex, prev.currentTime)
         == ViewLine(next.line, next.index, next.activeLineIndex, next.currentTime)
  {
    LineMemoSound(prev, next);
  }

  /** `activeLineIndex || 0`: an undefined index is passed to the lines as 0. */
  function PassedIndex(activeLineIndex: Option<int>): int {
    activeLineIndex.GetOr(0)
  }

  /** Before the parent sets an index, line 0 is drawn as the active line. */
  lemma UndefinedIndexShowsFirstLine(line: LyricLine, t: real)
    ensures ViewLine(line, 0, PassedIndex(None), t).status == Active
  {
  }

  // ---------------------------------------------------------------------------
  // The active line
  // ---------------------------------------------------------------------------

  /** The first line from `i` on whose window holds `t`, or -1. */
  function FindActiveFrom(lines: seq<LyricLine>, t: real, i: nat): (r: int)
    requires i <= |lines|
    ensures r == -1 || i <= r < |lines|
    decreases |lines| - i
  {
    if i == |lines| then -1
    else if InWindow(lines, i, t) then i
    else FindActiveFrom(lines, t, i + 1)
  }

  /** The index the search loop settles on. */
  function FindActive(lines: seq<LyricLine>, t: real): int {
    FindActiveFrom(lines, t, 0)
  }

  lemma {:induction false} FindActiveFromSpec(lines: seq<LyricLine>, t: real, i: nat)
    requires i <= |lines|
    ensures var r := FindActiveFrom(lines, t, i);
      && (r == -1 <==> forall k :: i <= k < |lines| ==> !InWindow(lines, k, t))
      && (r != -1 ==> InWindow(lines, r, t) && forall k :: i <= k < r ==> !InWindow(lines, k, t))
    decreases |lines| - i
  {
    if i < |lines| && !InWindow(lines, i, t) {
      FindActiveFromSpec(lines, t, i + 1);
    }
  }

  /** The search finds the first window holding `t`, and -1 exactly when there is none. */
  lemma FindActiveSpec(lines: seq<LyricLine>, t: real)
    ensures var r := FindActive(lines, t);
      && (r == -1 <==> forall k :: 0 <= k < |lines| ==> !InWindow(lines, k, t))
      && (r != -1 ==> 0 <= r < |lines| && InWindow(lines, r, t) && forall k :: 0 <= k < r ==> !InWindow(lines, k, t))
  {
    FindActiveFromSpec(lines, t, 0);
  }

  /** For time-sorted lines the search finds the last line that has started. */
  lemma SortedFindsLastStarted(lines: seq<LyricLine>, t: real)
    requires SortedByTime(lines)
    ensures var r := FindActive(lines, t);
      && (r == -1 <==> |lines| == 0 || t < lines[0].time)
      && (r != -1 ==> lines[r].time <= t && forall k :: r < k < |lines| ==> t < lines[k].time)
  {
    FindActiveSpec(lines, t);
    var r := FindActive(lines, t);
    if r != -1 {
      forall k | r < k < |lines|
        ensures t < lines[k].time
      {
        assert t < lines[r + 1].time;
      }
    } else if |lines| > 0 && lines[0].time <= t {
      var g := LastStarted(lines, t, 0);
      assert InWindow(lines, g, t);
    }
  }

  /** The last line from `i` on whose start is at or before `t`, given that line `i` has started. */
  lemma {:induction false} LastStarted(lines: seq<LyricLine>, t: real, i: nat) returns (g: nat)
    requires SortedByTime(lines)
    requires i < |lines| && lines[i].time <= t
    ensures i <= g < |lines| && lines[g].time <= t
    ensures g + 1 == |lines| || t < lines[g + 1].time
    decreases |lines| - i
  {
    if i + 1 < |lines| && lines[i + 1].time <= t {
      g := LastStarted(lines, t, i + 1);
    } else {
      g := i;
    }
  }

  /** For time-sorted lines the active index never moves back while time moves forward. */
  lemma FindActiveMonotone(lines: seq<LyricLine>, t1: real, t2: real)
    requires SortedByTime(lines) && t1 <= t2
    ensures FindActive(lines, t1) <= FindActive(lines, t2)
  {
    SortedFindsLastStarted(lines, t1);
    SortedFindsLastStarted(lines, t2);
    var r1 := FindActive(lines, t1);
    var r2 := FindActive(lines, t2);
    if r1 != -1 {
      assert r2 != -1;
    }
  }

  /** The search loop of the effect. */
  method SearchActive(lines: seq<LyricLine>, t: real) returns (newIndex: int)
    ensures newIndex == FindActive(lines, t)
  {
    newIndex := -1;
    var i := 0;
    while i < |lines|
      invariant 0 <= i <= |lines|
      invariant FindActiveFrom(lines, t, 0) == FindActiveFrom(lines, t, i)
      decreases |lines| - i
    {
      var start := lines[i].time;
      var next := NextTime(lines, i);
      if t >= start && (next.None? || t < next.value) {
        newIndex := i;
        return;
      }
      i := i + 1;
    }
  }

  /**
   * The active-line effect: the index it writes through `setActiveLineIndex`,
   * or `None` when it writes nothing.
   */
  function ActiveLineWrite(lines: seq<LyricLine>, t: real, isTransitioning: bool, current: Option<int>): (w: Option<int>)
    ensures w.Some? ==> |lines| > 0 && !isTransitioning && w.value == FindActive(lines, t)
    ensures w.Some? ==> current != Some(w.value)
    ensures w.None? && |lines| > 0 && !isTransitioning ==> current == Some(FindActive(lines, t))
  {
    if |lines| == 0 || isTransitioning then None
    else
      var newIndex := FindActive(lines, t);
      if current == Some(newIndex) then None else Some(newIndex)
  }

  /** After the effect has run (and written if it had to), the index is the search result. */
  lemma WriteSettles(lines: seq<LyricLine>, t: real, current: Option<int>)
    requires |lines| > 0
    ensures var w := ActiveLineWrite(lines, t, false, current);
      var after := if w.Some? then w else current;
      after == Some(FindActive(lines, t)) && ActiveLineWrite(lines, t, false, after).None?
  {
  }

  // ---------------------------------------------------------------------------
  // Song change transition
  // ---------------------------------------------------------------------------

  /**
   * The component's transition state: whether it is fading, the lyrics on
   * screen, the remembered song id, the lyrics of swaps whose 300 ms timer
   * is pending (in firing order), the number of pending 250 ms end timers,
   * and the parent's active line index.
   */
  datatype Transition = Transition(
    isTransitioning: bool,
    display: seq<LyricLine>,
    prevId: Option<SongId>,
    pendingSwaps: seq<seq<LyricLine>>,
    pendingEnds: nat,
    activeLineIndex: Option<int>)

  /** The effect run for new `lyrics` and `song_id` props. */
  function OnLyricsProps(s: Transition, lyrics: seq<LyricLine>, songId: Option<SongId>): (r: Transition)
    ensures r.prevId == songId && r.pendingEnds == s.pendingEnds && r.activeLineIndex == s.activeLineIndex
    ensures s.prevId != songId && s.prevId.Some? ==>
      r.isTransitioning && r.display == s.display && r.pendingSwaps == s.pendingSwaps + [lyrics]
    ensures !(s.prevId != songId && s.prevId.Some?) ==>
      r.isTransitioning == s.isTransitioning && r.display == lyrics && r.pendingSwaps == s.pendingSwaps
  {
    if s.prevId != songId && s.prevId.Some? then
      s.(isTransitioning := true, pendingSwaps := s.pendingSwaps + [lyrics], prevId := songId)
    else
      s.(display := lyrics, prevId := songId)
  }

  /** The 300 ms timer fires: the new lyrics go on screen, the index resets to -1, the end timer starts. */
  function Swap(s: Transition): (r: Transition)
    ensures s.pendingSwaps != [] ==>
      && r.display == s.pendingSwaps[0] && r.activeLineIndex == Some(-1)
      && r.pendingSwaps == s.pendingSwaps[1..] && r.pendingEnds == s.pendingEnds + 1
      && r.isTransitioning == s.isTransitioning && r.prevId == s.prevId
    ensures s.pendingSwaps == [] ==> r == s
  {
    if s.pendingSwaps == [] then s
    else s.(display := s.pendingSwaps[0], activeLineIndex := Some(-1),
            pendingSwaps := s.pendingSwaps[1..], pendingEnds := s.pendingEnds + 1)
  }

  /** The 250 ms timer fires: the fade ends. */
  function EndTransition(s: Transition): (r: Transition)
    ensures s.pendingEnds > 0 ==> !r.isTransitioning && r.pendingEnds == s.pendingEnds - 1
    ensures s.pendingEnds > 0 ==> r.display == s.display && r.activeLineIndex == s.activeLineIndex
    ensures s.pendingEnds > 0 ==> r.pendingSwaps == s.pendingSwaps && r.prevId == s.prevId
    ensures s.pendingEnds == 0 ==> r == s
  {
    if s.pendingEnds == 0 then s else s.(isTransitioning := false, pendingEnds := s.pendingEnds - 1)
  }

  /**
   * A song change from an idle state: the old lyrics stay while fading, then
   * the new lyrics appear with no active line, then the fade ends.
   */
  lemma SongChangeSequence(s: Transition, lyrics: seq<LyricLine>, id: SongId)
    requires s.prevId.Some? && s.prevId != Some(id)
    requires s.pendingSwaps == [] && s.pendingEnds == 0
    ensures var s1 := OnLyricsProps(s, lyrics, Some(id));
      && s1.isTransitioning && s1.display == s.display
      && var s2 := Swap(s1);
      && s2.isTransitioning && s2.display == lyrics && s2.activeLineIndex == Some(-1)
      && var s3 := EndTransition(s2);
      && !s3.isTransitioning && s3.display == lyrics && s3.activeLineIndex == Some(-1)
      && s3.pendingSwaps == [] && s3.pendingEnds == 0 && s3.prevId == Some(id)
  {
    var s1 := OnLyricsProps(s, lyrics, Some(id));
    assert s1.pendingSwaps == [lyrics];
  }

  /**
   * From the render after a song change on, while the fade is on, the
   * active-line effect writes nothing.
   */
  lemma NoSearchWhileTransitioning(s: Transition, lyrics: seq<LyricLine>, id: SongId, t: real)
    requires s.prevId.Some? && s.prevId != Some(id)
    ensures var s1 := OnLyricsProps(s, lyrics, Some(id));
      ActiveLineWrite(s1.display, t, s1.isTransitioning, s1.activeLineIndex).None?
  {
  }

  /**
   * The commit that carries the new song id still runs the active-line effect
   * on the state of its own render: not yet fading, old lyrics on screen. When
   * the old lyrics' active line differs from the index, it is written.
   */
  lemma SongChangeCommitSearchesOldLyrics(s: Transition, lyrics: seq<LyricLine>, id: SongId, t: real)
    requires s.prevId.Some? && s.prevId != Some(id) && !s.isTransitioning
    requires |s.display| > 0 && s.activeLineIndex != Some(FindActive(s.display, t))
    ensures OnLyricsProps(s, lyrics, Some(id)).isTransitioning
    ensures ActiveLineWrite(s.display, t, s.isTransitioning, s.activeLineIndex) == Some(FindActive(s.display, t))
  {
  }

  /** Old lines at 0 s and 2 s, the index still unset: at 0.5 s the commit of a song change writes 0. */
  lemma SongChangeCommitWritesOldIndex()
    ensures var prev := [LyricLine(0.0, "a", None, false), LyricLine(2.0, "b", None, false)];
      ActiveLineWrite(prev, 0.5, false, None) == Some(0)
  {
    var prev := [LyricLine(0.0, "a", None, false), LyricLine(2.0, "b", None, false)];
    assert FindActive(prev, 0.5) == 0 by {
      FindActiveSpec(prev, 0.5);
    }
  }
}
