/**
 * The player card (`MusicPlayer.tsx`): the `m:ss` clock text, the defaults
 * taken when no track is loaded, and the search bar's submit gate.
 */
module MusicPlayer {
  import opened Wrappers
  import opened Text
  import opened Digits
  import opened Lyrics

  // ---------------------------------------------------------------------------
  // formatTime
  // ---------------------------------------------------------------------------

  /** The quotient `a / b` truncated toward zero, the partner of JavaScript's `%`. */
  function TruncDiv(a: int, b: int): int
    requires b > 0
  {
    if a >= 0 then a / b else -((-a) / b)
  }

  /** JavaScript's `a % b` on integers: it truncates, so the remainder takes the sign of `a`. */
  function JsRem(a: int, b: int): (r: int)
    requires b > 0
    ensures a == TruncDiv(a, b) * b + r
    ensures -b < r < b
    ensures a >= 0 ==> r >= 0
    ensures a <= 0 ==> r <= 0
  {
    if a >= 0 then a % b
    else
      var q := (-a) / b;
      assert -a == q * b + (-a) % b;
      assert -(q * b) == (-q) * b;
      -((-a) % b)
  }

  /** `formatTime(seconds)`: whole minutes, a colon, and the remainder padded to two characters with `0`. */
  function FormatTime(seconds: real): string {
    var totalSeconds := seconds.Floor;
    var mins := totalSeconds / 60;
    var secs := JsRem(totalSeconds, 60);
    IntToString(mins) + ":" + PadStart(IntToString(secs), 2, '0')
  }

  /** Reads `m:s` back: two optionally signed integers around the first colon. */
  function ReadClock(r: string): Option<(int, int)> {
    var k := FirstIndexOf(r, ':');
    if k == |r| then None
    else
      match (ReadInt(r[..k]), ReadInt(r[k + 1..]))
      case (Some(m), Some(x)) => Some((m, x))
      case _ => None
  }

  /** Padding the remainder keeps its value: a lone digit gets a `0` in front, anything longer is left alone. */
  lemma PaddedReads(x: int)
    requires -60 < x < 60
    ensures ReadInt(PadStart(IntToString(x), 2, '0')) == Some(x)
    ensures 0 <= x ==> |PadStart(IntToString(x), 2, '0')| == 2
  {
    var s := IntToString(x);
    if |s| < 2 {
      assert x >= 0 && s == NatToDigits(x);
      var p := PadStart(s, 2, '0');
      assert p == "0" + s;
      ValueLeadingZero(s);
      assert IsNumeral(p);
    } else if x >= 0 {
      assert s == NatToDigits(x) && Value(s) == x;
      assert |s| == 2 by {
        TwoDigitsAtMost(x);
      }
    }
  }

  lemma TwoDigitsAtMost(x: nat)
    requires x < 100
    ensures |NatToDigits(x)| <= 2
  {
    if x >= 10 {
      assert NatToDigits(x) == NatToDigits(x / 10) + [DigitChar(x % 10)];
    }
  }

  /** The clock text reads back as the minute count and the JavaScript remainder, for every input. */
  lemma FormatTimeReads(seconds: real)
    ensures ReadClock(FormatTime(seconds)) == Some((seconds.Floor / 60, JsRem(seconds.Floor, 60)))
  {
    var f := seconds.Floor;
    var mins := f / 60;
    var secs := JsRem(f, 60);
    assert ':' !in IntToString(mins) by {
      IntToStringChars(mins);
    }
    PaddedReads(secs);
    ReadClockOf(IntToString(mins), PadStart(IntToString(secs), 2, '0'), mins, secs);
  }

  /** Two numerals around a colon, the first without a colon of its own, read back as the pair. */
  lemma ReadClockOf(m: string, p: string, a: int, b: int)
    requires ':' !in m && ReadInt(m) == Some(a) && ReadInt(p) == Some(b)
    ensures ReadClock(m + ":" + p) == Some((a, b))
  {
    var r := m + ":" + p;
    assert r[|m|] == ':';
    assert forall i :: 0 <= i < |m| ==> r[i] == m[i];
    assert FirstIndexOf(r, ':') == |m|;
    assert r[..|m|] == m;
    assert r[|m| + 1..] == p;
  }

  /**
   * For a non-negative time the text is `m:ss`: a minute count, then exactly
   * two digits worth less than 60, and the two fields give back the whole seconds.
   */
  lemma FormatTimeRoundTrip(seconds: real)
    requires seconds >= 0.0
    ensures var r := FormatTime(seconds);
      && |r| >= 4 && r[|r| - 3] == ':' && IsDigit(r[|r| - 2]) && IsDigit(r[|r| - 1])
      && ReadClock(r).Some?
      && var (m, x) := ReadClock(r).value;
      && m >= 0 && 0 <= x < 60 && m * 60 + x == seconds.Floor
  {
    var f := seconds.Floor;
    FormatTimeReads(seconds);
    var secs := JsRem(f, 60);
    assert TruncDiv(f, 60) == f / 60;
    var p := PadStart(IntToString(secs), 2, '0');
    PaddedReads(secs);
    assert IsNumeral(p) by {
      assert p[0] != '-';
    }
    ClockShape(IntToString(f / 60), p);
  }

  /** A non-empty minute field, a colon and two digits end in the colon and the two digits. */
  lemma ClockShape(m: string, p: string)
    requires |m| >= 1 && |p| == 2 && IsNumeral(p)
    ensures var r := m + ":" + p;
      |r| >= 4 && r[|r| - 3] == ':' && IsDigit(r[|r| - 2]) && IsDigit(r[|r| - 1])
  {
    var r := m + ":" + p;
    assert r[|r| - 2] == p[0] && r[|r| - 1] == p[1];
  }

  /** Non-negative times with different whole seconds never show the same text. */
  lemma FormatTimeInjective(s: real, u: real)
    requires s >= 0.0 && u >= 0.0
    requires FormatTime(s) == FormatTime(u)
    ensures s.Floor == u.Floor
  {
    FormatTimeRoundTrip(s);
    FormatTimeRoundTrip(u);
  }

  /** Five seconds before zero shows as minus one minute and minus five seconds. */
  lemma NegativeTimeShape()
    ensures FormatTime(-5.0) == "-1:-5"
  {
    assert (-5.0).Floor == -5;
    assert -5 / 60 == -1;
    assert JsRem(-5, 60) == -5;
    assert IntToString(-1) == "-1" by {
      assert NatToDigits(1) == "1";
    }
    assert IntToString(-5) == "-5" by {
      assert NatToDigits(5) == "5";
    }
    assert PadStart("-5", 2, '0') == "-5";
  }

  // ---------------------------------------------------------------------------
  // Track defaults
  // ---------------------------------------------------------------------------

  /** The `trackInfo` object as it may arrive: any field may be missing. */
  datatype TrackFields = TrackFields(
    songName: Option<string>,
    artistName: Option<string>,
    album: Option<string>,
    coverArtUrl: Option<string>,
    songLengthSec: Option<real>,
    songId: Option<SongId>,
    // the `lyrics` key, read into the local `lyricsUrl`
    lyrics: Option<string>)

  datatype Track = Track(
    songName: string,
    artistName: string,
    album: string,
    coverArtUrl: string,
    songLengthSec: real,
    songId: SongId,
    lyricsUrl: string)

  /** The destructuring of `trackInfo || {}` with its defaults. */
  function TrackOf(info: Option<TrackFields>): (t: Track)
    ensures info.None? ==> t == Track("...", "...", "...", "", 0.0, NumId(0), "")
    ensures info.Some? && info.value.songName.Some? ==> t.songName == info.value.songName.value
    ensures info.Some? && info.value.songName.None? ==> t.songName == "..."
    ensures info.Some? && info.value.artistName.Some? ==> t.artistName == info.value.artistName.value
    ensures info.Some? && info.value.artistName.None? ==> t.artistName == "..."
    ensures info.Some? && info.value.album.Some? ==> t.album == info.value.album.value
    ensures info.Some? && info.value.album.None? ==> t.album == "..."
    ensures info.Some? && info.value.coverArtUrl.Some? ==> t.coverArtUrl == info.value.coverArtUrl.value
    ensures info.Some? && info.value.coverArtUrl.None? ==> t.coverArtUrl == ""
    ensures info.Some? && info.value.songLengthSec.Some? ==> t.songLengthSec == info.value.songLengthSec.value
    ensures info.Some? && info.value.songLengthSec.None? ==> t.songLengthSec == 0.0
    ensures info.Some? && info.value.songId.Some? ==> t.songId == info.value.songId.value
    ensures info.Some? && info.value.songId.None? ==> t.songId == NumId(0)
    ensures info.Some? && info.value.lyrics.Some? ==> t.lyricsUrl == info.value.lyrics.value
    ensures info.Some? && info.value.lyrics.None? ==> t.lyricsUrl == ""
  {
    var f := info.GetOr(TrackFields(None, None, None, None, None, None, None));
    Track(f.songName.GetOr("..."), f.artistName.GetOr("..."), f.album.GetOr("..."),
      f.coverArtUrl.GetOr(""), f.songLengthSec.GetOr(0.0), f.songId.GetOr(NumId(0)), f.lyrics.GetOr(""))
  }

  /** An object with every key present (`lyrics` included) comes through the defaults unchanged. */
  lemma TrackOfComplete(t: Track)
    ensures TrackOf(Some(TrackFields(Some(t.songName), Some(t.artistName), Some(t.album),
      Some(t.coverArtUrl), Some(t.songLengthSec), Some(t.songId), Some(t.lyricsUrl)))) == t
  {
  }

  /** With no track loaded the length label reads `0:00`. */
  lemma NoTrackShowsZero()
    ensures FormatTime(TrackOf(None).songLengthSec) == "0:00"
  {
    assert IntToString(0) == "0";
    assert PadStart("0", 2, '0') == "00";
  }

  // ---------------------------------------------------------------------------
  // Search bar
  // ---------------------------------------------------------------------------

  /** What a submit does: the query left in the input, and the text handed to `onSearch`, if any. */
  datatype Submitted = Submitted(query: string, searched: Option<string>)

  function HandleSubmit(query: string): (r: Submitted)
    ensures r.searched.None? <==> AllWhitespace(query)
    ensures r.searched.None? ==> r.query == query
    ensures r.searched.Some? ==> r.query == "" && r.searched.value == Trim(query)
    ensures r.searched.Some? ==> r.searched.value != "" && Trim(r.searched.value) == r.searched.value
  {
    var t := Trim(query);
    if t != "" then
      TrimIdempotent(query);
      Submitted("", Some(t))
    else Submitted(query, None)
  }

  /** Submitting again right after a search sends nothing. */
  lemma SubmitTwice(query: string)
    requires HandleSubmit(query).searched.Some?
    ensures HandleSubmit(HandleSubmit(query).query) == Submitted("", None)
  {
  }
}
