/**
  The pure rules the player's session state follows: the ±10 s seek clamps,
  the "watch next" visibility rule, the persisted resume keys and the progress
  fraction saved at teardown and shown in the episode list.

  Times are seconds as `real`; a duration the player cannot report as a finite
  number (an indefinite item, whose seconds read as NaN) is `Indefinite`.
 */
module PlaybackRules {

  import opened Optional

  /** The duration the player reports for its current item. */
  datatype MediaDuration = Finite(seconds: real) | Indefinite

  /** The player's current item, if it has one. */
  datatype PlayerItem = NoItem | Item(duration: MediaDuration)

  /** How far the backward and forward buttons jump. */
  const SkipSeconds: real := 10.0

  /** Watch next is offered in the last tenth of the item. */
  const WatchNextFraction: real := 0.10

  // ---------------------------------------------------------------------------
  // Seeking

  /** Position after the backward button: ten seconds back, never before 0. */
  function SeekBackwardTarget(pos: real): (r: real)
    ensures r >= 0.0
    ensures pos >= 0.0 ==> r <= pos
    ensures pos >= SkipSeconds ==> r == pos - SkipSeconds
    ensures pos <= SkipSeconds ==> r == 0.0
  {
    if pos - SkipSeconds > 0.0 then pos - SkipSeconds else 0.0
  }

  /**
    Position after the forward button: ten seconds on, never past `dur`, the
    duration recorded by the last finite tick.
   */
  function SeekForwardTarget(pos: real, dur: real): (r: real)
    ensures r <= dur
    ensures 0.0 <= pos <= dur ==> pos <= r <= dur
    ensures pos + SkipSeconds <= dur ==> r == pos + SkipSeconds
    ensures pos + SkipSeconds >= dur ==> r == dur
  {
    if pos + SkipSeconds < dur then pos + SkipSeconds else dur
  }

  /** Both buttons keep a position that lies in [0, dur] inside it. */
  lemma SeekKeepsPositionInRange(pos: real, dur: real)
    requires 0.0 <= pos <= dur
    ensures 0.0 <= SeekBackwardTarget(pos) <= dur
    ensures 0.0 <= SeekForwardTarget(pos, dur) <= dur
  {
  }

  /** Away from both ends, one press forward and one back return to the start point. */
  lemma SeekForwardThenBackward(pos: real, dur: real)
    requires 0.0 <= pos && pos + SkipSeconds <= dur
    ensures SeekBackwardTarget(SeekForwardTarget(pos, dur)) == pos
  {
  }

  lemma SeekBackwardThenForward(pos: real, dur: real)
    requires SkipSeconds <= pos <= dur
    ensures SeekForwardTarget(SeekBackwardTarget(pos), dur) == pos
  {
  }

  /**
    While no finite tick has recorded a duration, the recorded duration is 0,
    and the forward button moves any position up to 10 s before the start
    back to the start.
   */
  lemma SeekForwardWithoutDurationRewinds(pos: real)
    requires pos >= -SkipSeconds
    ensures SeekForwardTarget(pos, 0.0) == 0.0
  {
  }

  // ---------------------------------------------------------------------------
  // Watch next

  /**
    The watch-next button is shown when at most a tenth of the item remains,
    the position is not exactly the duration, the session allows the button
    and the duration is non-zero.
   */
  function WatchNextVisible(pos: real, dur: real, showWatchNext: bool): (visible: bool)
    ensures visible ==> showWatchNext && dur != 0.0 && pos != dur
  {
    (dur - pos) <= dur * WatchNextFraction && pos != dur && showWatchNext && dur != 0.0
  }

  /** The rule read as a window: the last tenth of the item, minus its very end. */
  lemma WatchNextWindow(pos: real, dur: real, showWatchNext: bool)
    ensures WatchNextVisible(pos, dur, showWatchNext) <==>
              showWatchNext && dur != 0.0 && pos != dur && pos >= 0.9 * dur
  {
  }

  /** At the exact end of the item the button is hidden, whatever else holds. */
  lemma WatchNextHiddenAtEnd(dur: real, showWatchNext: bool)
    ensures !WatchNextVisible(dur, dur, showWatchNext)
  {
  }

  /** With a 100 s item: shown from 90 s, still at 99.999 s, hidden at 100 s and before 90 s. */
  lemma WatchNextHundredSeconds()
    ensures WatchNextVisible(90.0, 100.0, true)
    ensures WatchNextVisible(99.999, 100.0, true)
    ensures !WatchNextVisible(100.0, 100.0, true)
    ensures !WatchNextVisible(89.999, 100.0, true)
    ensures !WatchNextVisible(95.0, 100.0, false)
  {
  }

  // ---------------------------------------------------------------------------
  // Persisted progress

  /** The key under which the last played position of a stream is stored. */
  function LastPlayedKey(fullUrl: string): (k: string)
    ensures |k| > |fullUrl|
  {
    "lastPlayedTime_" + fullUrl
  }

  /** The key under which the total duration of a stream is stored. */
  function TotalTimeKey(fullUrl: string): (k: string)
    ensures |k| > |fullUrl|
  {
    "totalTime_" + fullUrl
  }

  /** The key under which the playback rate is stored at teardown. */
  const PlaybackSpeedKey: string := "lastPlaybackSpeed"

  /** The three kinds of key never collide, whatever the stream URLs. */
  lemma KeysDistinct(u: string, v: string)
    ensures LastPlayedKey(u) != TotalTimeKey(v)
    ensures LastPlayedKey(u) != PlaybackSpeedKey
    ensures TotalTimeKey(u) != PlaybackSpeedKey
  {
    assert LastPlayedKey(u)[0] == 'l' && TotalTimeKey(v)[0] == 't';
    assert LastPlayedKey(u)[8] == 'e' && PlaybackSpeedKey[8] == 'b';
  }

  /** Each stream has keys of its own. */
  lemma KeysInjective(u: string, v: string)
    ensures LastPlayedKey(u) == LastPlayedKey(v) ==> u == v
    ensures TotalTimeKey(u) == TotalTimeKey(v) ==> u == v
  {
    if LastPlayedKey(u) == LastPlayedKey(v) {
      assert u == LastPlayedKey(u)[15..];
    }
    if TotalTimeKey(u) == TotalTimeKey(v) {
      assert u == TotalTimeKey(u)[10..];
    }
  }

  /** The value the defaults store reads for a key: 0 when nothing is stored. */
  function StoredDouble(defaults: map<string, real>, key: string): (v: real)
    ensures key in defaults ==> v == defaults[key]
    ensures key !in defaults ==> v == 0.0
  {
    if key in defaults then defaults[key] else 0.0
  }

  /**
    Reading a key back gives the last value written under it, and writing one
    key never changes what another key reads.
   */
  lemma StoredDoubleReadAfterWrite(defaults: map<string, real>, key: string, other: string, v: real)
    ensures StoredDouble(defaults[key := v], key) == v
    ensures other != key ==> StoredDouble(defaults[key := v], other) == StoredDouble(defaults, other)
  {
  }

  /**
    The defaults after one finite tick: the position and the duration under the
    stream's two keys, last write wins, every other entry untouched.
   */
  function Persist(defaults: map<string, real>, fullUrl: string, pos: real, dur: real): (r: map<string, real>)
    ensures r.Keys == defaults.Keys + {LastPlayedKey(fullUrl), TotalTimeKey(fullUrl)}
    ensures r[LastPlayedKey(fullUrl)] == pos && r[TotalTimeKey(fullUrl)] == dur
    ensures forall k :: k in defaults && k != LastPlayedKey(fullUrl) && k != TotalTimeKey(fullUrl) ==>
              r[k] == defaults[k]
  {
    KeysDistinct(fullUrl, fullUrl);
    defaults[LastPlayedKey(fullUrl) := pos][TotalTimeKey(fullUrl) := dur]
  }

  /** The defaults after a run of finite ticks, each observing (position, duration). */
  function PersistAll(defaults: map<string, real>, fullUrl: string, ticks: seq<(real, real)>): map<string, real>
    decreases |ticks|
  {
    if |ticks| == 0 then defaults
    else PersistAll(Persist(defaults, fullUrl, ticks[0].0, ticks[0].1), fullUrl, ticks[1..])
  }

  /**
    However many ticks a session delivers, the store holds exactly one entry
    per key for the stream, holding the last tick's position and duration, and
    no other entry changes.
   */
  lemma {:induction false} PersistAllLastWriteWins(defaults: map<string, real>, fullUrl: string, ticks: seq<(real, real)>)
    requires |ticks| > 0
    decreases |ticks|
    ensures PersistAll(defaults, fullUrl, ticks).Keys ==
              defaults.Keys + {LastPlayedKey(fullUrl), TotalTimeKey(fullUrl)}
    ensures PersistAll(defaults, fullUrl, ticks)[LastPlayedKey(fullUrl)] == ticks[|ticks| - 1].0
    ensures PersistAll(defaults, fullUrl, ticks)[TotalTimeKey(fullUrl)] == ticks[|ticks| - 1].1
    ensures forall k :: k in defaults && k != LastPlayedKey(fullUrl) && k != TotalTimeKey(fullUrl) ==>
              PersistAll(defaults, fullUrl, ticks)[k] == defaults[k]
  {
    var next := Persist(defaults, fullUrl, ticks[0].0, ticks[0].1);
    if |ticks| > 1 {
      PersistAllLastWriteWins(next, fullUrl, ticks[1..]);
      assert ticks[1..][|ticks[1..]| - 1] == ticks[|ticks| - 1];
    }
  }

  /**
    The seek issued when the player is created: to the stored last position of
    the stream when that is positive, otherwise none.
   */
  function ResumeSeek(defaults: map<string, real>, fullUrl: string): (r: Option<real>)
    ensures r.Some? <==> LastPlayedKey(fullUrl) in defaults && defaults[LastPlayedKey(fullUrl)] > 0.0
    ensures r.Some? ==> r.value == defaults[LastPlayedKey(fullUrl)]
  {
    var lastPlayedTime := StoredDouble(defaults, LastPlayedKey(fullUrl));
    if lastPlayedTime > 0.0 then Some(lastPlayedTime) else None
  }

  /** A later player for the same stream resumes where the last finite tick left off. */
  lemma ResumeAfterPersist(defaults: map<string, real>, fullUrl: string, pos: real, dur: real)
    ensures ResumeSeek(Persist(defaults, fullUrl, pos, dur), fullUrl) ==
              if pos > 0.0 then Some(pos) else None
  {
  }

  /**
    The progress fraction saved to the continue-watching list at teardown:
    computed only when the player's current item has a positive duration.
   */
  function ProgressFraction(pos: real, item: PlayerItem): (r: Option<real>)
    ensures r.Some? <==> item.Item? && item.duration.Finite? && item.duration.seconds > 0.0
    ensures r.Some? ==> r.value * item.duration.seconds == pos
    ensures r.Some? && 0.0 <= pos <= item.duration.seconds ==> 0.0 <= r.value <= 1.0
  {
    match item
    case Item(Finite(d)) =>
      if d > 0.0 then FractionBounds(pos, d); Some(pos / d) else None
    case _ => None
  }

  /** A position inside [0, dur] is a fraction between 0 and 1 of dur. */
  lemma FractionBounds(pos: real, dur: real)
    requires dur > 0.0
    ensures 0.0 <= pos <= dur ==> 0.0 <= pos / dur <= 1.0
  {
  }

  /**
    The progress the episode list shows for a stream, read back from the two
    persisted keys; 0 when no positive total is stored.
   */
  function EpisodeProgress(defaults: map<string, real>, fullUrl: string): (r: real)
    ensures StoredDouble(defaults, TotalTimeKey(fullUrl)) <= 0.0 ==> r == 0.0
    ensures StoredDouble(defaults, TotalTimeKey(fullUrl)) > 0.0 ==>
              r * StoredDouble(defaults, TotalTimeKey(fullUrl)) == StoredDouble(defaults, LastPlayedKey(fullUrl))
  {
    var lastPlayedTime := StoredDouble(defaults, LastPlayedKey(fullUrl));
    var totalTime := StoredDouble(defaults, TotalTimeKey(fullUrl));
    if totalTime > 0.0 then lastPlayedTime / totalTime else 0.0
  }

  /**
    After a finite tick with a positive duration, the episode list shows the
    same fraction the teardown would save for that position and duration.
   */
  lemma EpisodeProgressMatchesTeardown(defaults: map<string, real>, fullUrl: string, pos: real, dur: real)
    requires dur > 0.0
    ensures ProgressFraction(pos, Item(Finite(dur))) == Some(EpisodeProgress(Persist(defaults, fullUrl, pos, dur), fullUrl))
  {
  }

  /** The upper end of the slider's range: the duration, or 1 while it is not positive. */
  function SliderRangeEnd(dur: real): (r: real)
    ensures r > 0.0
    ensures dur > 0.0 ==> r == dur
    ensures dur <= 0.0 ==> r == 1.0
  {
    if dur > 0.0 then dur else 1.0
  }

  /**
    The range is never empty, and a tick's position that lies in [0, dur]
    lies in the slider's range [0, SliderRangeEnd(dur)].
   */
  lemma SliderRangeHoldsPosition(pos: real, dur: real)
    requires 0.0 <= pos <= dur
    ensures 0.0 < SliderRangeEnd(dur)
    ensures 0.0 <= pos <= SliderRangeEnd(dur)
  {
  }
}
