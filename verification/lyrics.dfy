/**
 * The lyric model shared by both players and produced by the subtitle parser:
 * `WordTiming`, `LyricLine`, song identifiers, and the line window
 * `[time[i], time[i + 1])` that both players' searches use.
 */
module Lyrics {
  import opened Wrappers

  /** One word and the interval in which it is sung, in seconds from the start of the track. */
  datatype WordTiming = WordTiming(text: string, start: real, end: real)

  /**
   * One rendered line. `words` is absent for line-timed lyrics; `isAdlib` is
   * the optional flag of the newer player, `false` when the source leaves it undefined.
   */
  datatype LyricLine = LyricLine(time: real, text: string, words: Option<seq<WordTiming>>, isAdlib: bool)

  /** A `song_id` prop: `string | number`, compared with `!==`, so `1` and `"1"` differ. */
  datatype SongId = NumId(n: int) | TextId(s: string)

  /** `lyrics[i + 1]?.time ?? Infinity`: the next line's start, `None` (unbounded) after the last line. */
  function NextTime(lines: seq<LyricLine>, i: int): Option<real>
    requires 0 <= i < |lines|
  {
    if i + 1 < |lines| then Some(lines[i + 1].time) else None
  }

  /** `time <= t < next` for line `i`, with an unbounded upper edge on the last line. */
  predicate InWindow(lines: seq<LyricLine>, i: int, t: real)
    requires 0 <= i < |lines|
  {
    lines[i].time <= t && (i + 1 == |lines| || t < lines[i + 1].time)
  }

  /** Line start times never decrease along the sequence. */
  predicate SortedByTime(lines: seq<LyricLine>) {
    forall i, j :: 0 <= i < j < |lines| ==> lines[i].time <= lines[j].time
  }

  /** In time-sorted lyrics no instant lies in two line windows. */
  lemma WindowsDisjoint(lines: seq<LyricLine>, i: int, j: int, t: real)
    requires SortedByTime(lines)
    requires 0 <= i < |lines| && 0 <= j < |lines|
    requires InWindow(lines, i, t) && InWindow(lines, j, t)
    ensures i == j
  {
  }
}
