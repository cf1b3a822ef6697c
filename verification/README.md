# Sora custom player: playback session model

This project models the playback session kept by `CustomMediaPlayerViewController`
in Sora, a media-streaming client, with the UI and media frameworks taken out. The
session state is a position and a duration in seconds, whether playback is on, the
progress slider's value and whether the user is dragging it, the watch-next button's
visibility, the caption shown, and the user defaults entries that let a stream
resume where it stopped.

- `options.dfy` (module `Optional`) holds the `Option` type.
- `subtitles.dfy` (module `Subtitles`) holds the pure subtitle rules:
  - a parsed cue has a start, an end and a text;
  - the caption at time `t` is the text of the first cue in list order whose
    closed interval `[start, end]` contains `t`, or empty when none does;
  - the subtitle colour menu stores a colour name, and a name is mapped back to
    a colour with white as the fallback.
- `playback_rules.dfy` (module `PlaybackRules`) holds the other pure rules:
  - the ±10 s seek clamps;
  - the watch-next rule: at most 10 % of the item remains, the position is not
    exactly the duration, the session allows the button, and the duration is non-zero;
  - the persisted keys `lastPlayedTime_<fullUrl>` and `totalTime_<fullUrl>`;
  - the resume seek on creation;
  - the progress fraction saved to the continue-watching list at teardown;
  - the fraction the episode list reads back from the two keys;
  - the slider's range.
- `player_session.dfy` (module `PlayerSession`) holds the class `Session`. Its
  fields mirror the controller's mutable state. It has one method per operation,
  and each method calls the pure rules above. The media player appears only as
  the log of commands the session sends it (a seek with its time scale, play or
  pause), plus the time and current item it reports, which are parameters of the
  callbacks. A player item's duration is either a finite number of seconds or
  `Indefinite`, which stands for a non-finite value.

The proofs show the following:
- A tick whose item duration is not finite changes nothing.
- A finite tick writes exactly the stream's two keys, with the new position and
  duration, and leaves every other key alone.
- The watch-next button is visible only while the session allows it and a
  non-zero duration has been recorded. This is the class invariant.
- Each button seek keeps a position in `[0, duration]` inside it, and a press
  forward then back returns to the starting point when neither end clamps.
  Slider seeks go to whatever value the slider holds.
- A new session resumes at the last persisted position when that position is
  greater than 0.
- After a finite tick with a positive duration, the episode list shows the
  fraction teardown would save for that same position and duration. The update
  timer and the seek buttons change the position without persisting it, so by
  teardown the two fractions can differ.

Behaviour of the code that the model keeps:
- Teardown divides the recorded position by the duration of the player's
  current item, read at teardown.
- The forward button clamps to the recorded duration. That value is 0 until the
  first finite tick, so the forward button seeks to 0 before then
  (`SeekForwardWithoutDurationRewinds`). For an item whose duration is never
  finite, every tick returns early, the recorded duration stays 0 for the whole
  session, and the forward button always seeks to 0.
- A tick with a non-finite duration records nothing, not even the position.
- The resume seek happens whenever the stored position is positive, whatever
  total is stored.
- Teardown unregisters the time observer and stops the update timer, and that
  is why later ticks do nothing. Calling teardown twice pauses twice and saves
  the progress twice.
- Teardown pauses the player before it reads the player's rate. A paused player
  reports a rate of 0, so the value stored under "lastPlaybackSpeed" is 0
  whatever speed was chosen. In the model the rate is a parameter of teardown.

## Model

| member | source | states |
|---|---|---|
| `Subtitles.FirstActiveCue` | Sora/Utils/MediaPlayer/CustomPlayer/CustomPlayer.swift:396 | the index returned is of a cue whose inclusive interval contains t with no earlier cue containing t; none is returned exactly when no cue contains t |
| `Subtitles.CaptionAt` | Sora/Utils/MediaPlayer/CustomPlayer/CustomPlayer.swift:396-400 | the caption is the text of the first cue in list order containing t, and empty when no cue contains t |
| `Subtitles.FirstActiveCueAppend` | Sora/Utils/MediaPlayer/CustomPlayer/CustomPlayer.swift:396 | looking up in a + b gives a's match when a has one, else b's match shifted by the length of a |
| `Subtitles.OverlapPrefersEarlierCue` | Sora/Utils/MediaPlayer/CustomPlayer/CustomPlayer.swift:396-400 | with cues (0,5,"a") and (3,8,"b") the caption at 4 is "a"; listed the other way round it is "b" |
| `Subtitles.CueBoundsInclusive` | Sora/Utils/MediaPlayer/CustomPlayer/CustomPlayer.swift:396 | a cue is shown at its start and at its end, and not just outside them |
| `Subtitles.ColorName` | Sora/Utils/MediaPlayer/CustomPlayer/CustomPlayer.swift:507-512 | every colour the menu can pick is stored as one of the six known names |
| `Subtitles.ColorFromName` | Sora/Utils/MediaPlayer/CustomPlayer/CustomPlayer.swift:369-379 | a known name selects the colour with that name; any other name selects white |
| `Subtitles.ColorNameRoundTrip` | Sora/Utils/MediaPlayer/CustomPlayer/CustomPlayer.swift:369-379 | the colour picked in the menu is the colour the label is drawn in |
| `PlaybackRules.SeekBackwardTarget` | Sora/Utils/MediaPlayer/CustomPlayer/CustomPlayer.swift:452-455 | the new position is never negative, never later than a non-negative old position, exactly 10 s back when at least 10 s have played, else 0 |
| `PlaybackRules.SeekForwardTarget` | Sora/Utils/MediaPlayer/CustomPlayer/CustomPlayer.swift:457-460 | the new position never exceeds the duration, stays in [pos, duration] when pos was in [0, duration], is exactly 10 s on when that fits, else the duration |
| `PlaybackRules.SeekKeepsPositionInRange` | Sora/Utils/MediaPlayer/CustomPlayer/CustomPlayer.swift:452-460 | both buttons keep a position in [0, duration] inside it |
| `PlaybackRules.SeekForwardThenBackward` | Sora/Utils/MediaPlayer/CustomPlayer/CustomPlayer.swift:452-460 | forward then back returns to the start point when forward did not clamp |
| `PlaybackRules.SeekBackwardThenForward` | Sora/Utils/MediaPlayer/CustomPlayer/CustomPlayer.swift:452-460 | back then forward returns to the start point when back did not clamp |
| `PlaybackRules.SeekForwardWithoutDurationRewinds` | Sora/Utils/MediaPlayer/CustomPlayer/CustomPlayer.swift:457-460 | with the initial recorded duration 0, the forward button moves to 0 |
| `PlaybackRules.WatchNextVisible` | Sora/Utils/MediaPlayer/CustomPlayer/CustomPlayer.swift:402-405 | the button is shown only when the session allows it, the duration is non-zero and the position is not exactly the duration |
| `PlaybackRules.WatchNextWindow` | Sora/Utils/MediaPlayer/CustomPlayer/CustomPlayer.swift:402-405 | shown if and only if allowed, duration non-zero, position not the duration, and position at least 90 % of the duration |
| `PlaybackRules.WatchNextHiddenAtEnd` | Sora/Utils/MediaPlayer/CustomPlayer/CustomPlayer.swift:402-417 | at position equal to the duration the button is hidden |
| `PlaybackRules.WatchNextHundredSeconds` | Sora/Utils/MediaPlayer/CustomPlayer/CustomPlayer.swift:402-417 | for a 100 s item: shown at 90 and 99.999, hidden at 100 and 89.999, hidden when not allowed |
| `PlaybackRules.LastPlayedKey` | Sora/Utils/MediaPlayer/CustomPlayer/CustomPlayer.swift:393 | defined as the prefix "lastPlayedTime_" followed by the URL; its contract says only that the key is longer than the URL; distinctness and injectivity are KeysDistinct and KeysInjective |
| `PlaybackRules.TotalTimeKey` | Sora/Utils/MediaPlayer/CustomPlayer/CustomPlayer.swift:394 | defined as the prefix "totalTime_" followed by the URL; its contract says only that the key is longer than the URL; distinctness and injectivity are KeysDistinct and KeysInjective |
| `PlaybackRules.KeysDistinct` | Sora/Utils/MediaPlayer/CustomPlayer/CustomPlayer.swift:393-394 | the position, duration and playback-speed keys never coincide, for any URLs |
| `PlaybackRules.KeysInjective` | Sora/Utils/MediaPlayer/CustomPlayer/CustomPlayer.swift:393-394 | different streams never share a position key or a duration key |
| `PlaybackRules.StoredDoubleReadAfterWrite` | Sora/Utils/MediaPlayer/CustomPlayer/CustomPlayer.swift:91-94 | reading a key of the defaults after writing it gives the value written; writing one key leaves what every other key reads unchanged |
| `PlaybackRules.Persist` | Sora/Utils/MediaPlayer/CustomPlayer/CustomPlayer.swift:393-394 | after a finite tick the stream's position key holds the position, its duration key holds the duration, only those keys are added, and no other entry changes |
| `PlaybackRules.PersistAllLastWriteWins` | Sora/Utils/MediaPlayer/CustomPlayer/CustomPlayer.swift:393-394 | after any non-empty run of ticks there is one entry per key, holding the last tick's values, and no other entry changes |
| `PlaybackRules.ResumeSeek` | Sora/Utils/MediaPlayer/CustomPlayer/CustomPlayer.swift:91-95 | a resume seek is issued exactly when a position greater than 0 is stored, and it targets that position |
| `PlaybackRules.ResumeAfterPersist` | Sora/Utils/MediaPlayer/CustomPlayer/CustomPlayer.swift:91-95 | a later session resumes at the position the last finite tick persisted, if that position is positive |
| `PlaybackRules.ProgressFraction` | Sora/Utils/MediaPlayer/CustomPlayer/CustomPlayer.swift:132-133 | a fraction is computed exactly when the current item has a finite positive duration; fraction times duration is the position, and it lies in [0, 1] for a position in [0, duration] |
| `PlaybackRules.FractionBounds` | Sora/Utils/MediaPlayer/CustomPlayer/CustomPlayer.swift:133 | a position in [0, duration] over a positive duration lies in [0, 1] |
| `PlaybackRules.EpisodeProgress` | Sora/Views/MediaInfoView/MediaInfoView.swift:143-145 | the episode list shows 0 without a positive stored total, else a fraction that times the total gives the stored position |
| `PlaybackRules.EpisodeProgressMatchesTeardown` | Sora/Views/MediaInfoView/MediaInfoView.swift:143-145 | after a finite tick with a positive duration the episode list shows the fraction teardown would save |
| `PlaybackRules.SliderRangeEnd` | Sora/Utils/MediaPlayer/CustomPlayer/CustomPlayer.swift:221 | the slider's upper bound is always positive; it is the duration when that is positive and 1 otherwise |
| `PlaybackRules.SliderRangeHoldsPosition` | Sora/Utils/MediaPlayer/CustomPlayer/CustomPlayer.swift:419-423 | the slider range is never empty, and a position in [0, duration] lies inside it |
| `PlayerSession.Session.constructor` | Sora/Utils/MediaPlayer/CustomPlayer/CustomPlayer.swift:60-96 | a new session is playing at 0 with duration 0, slider range 1 and the button hidden; whether watch next may be offered is the presenter's setting; its only command is the resume seek at time scale 1, issued when a positive position is stored |
| `PlayerSession.Session.ViewDidLoad` | Sora/Utils/MediaPlayer/CustomPlayer/CustomPlayer.swift:102-120 | loading registers the observer, starts the update timer, sizes the slider and sends play |
| `PlayerSession.Session.SubtitlesLoaded` | Sora/Utils/MediaPlayer/CustomPlayer/CustomPlayer.swift:117-119 | the loaded cues become the session's cue list |
| `PlayerSession.Session.PeriodicTick` | Sora/Utils/MediaPlayer/CustomPlayer/CustomPlayer.swift:383-436 | without a registered observer, an item or a finite duration nothing changes; otherwise it sets position, duration and slider (unless dragging), persists both keys, sets the first active cue's caption, sets watch-next by the rule, and schedules an auto-hide when the setting is on; keeps the invariant |
| `PlayerSession.Session.FireAutoHide` | Sora/Utils/MediaPlayer/CustomPlayer/CustomPlayer.swift:409-411 | a scheduled auto-hide hides the button and is consumed |
| `PlayerSession.Session.UpdateTimerFired` | Sora/Utils/MediaPlayer/CustomPlayer/CustomPlayer.swift:439-444 | while the timer is scheduled it copies the player's time into the position; otherwise nothing changes |
| `PlayerSession.Session.SeekBackward` | Sora/Utils/MediaPlayer/CustomPlayer/CustomPlayer.swift:452-455 | the position becomes the backward target and one seek to it at time scale 600 is sent |
| `PlayerSession.Session.SeekForward` | Sora/Utils/MediaPlayer/CustomPlayer/CustomPlayer.swift:457-460 | the position becomes the forward target for the recorded duration and one seek to it at time scale 600 is sent |
| `PlayerSession.Session.TogglePlayPause` | Sora/Utils/MediaPlayer/CustomPlayer/CustomPlayer.swift:462-471 | isPlaying is negated, pause is sent when it was playing and play otherwise, and no other field changes |
| `PlayerSession.Session.SliderMoved` | Sora/Utils/MediaPlayer/CustomPlayer/CustomPlayer.swift:218-220 | dragging sets the slider's value |
| `PlayerSession.Session.SliderEditingChanged` | Sora/Utils/MediaPlayer/CustomPlayer/CustomPlayer.swift:226-231 | the editing flag follows the slider; on release a seek to the slider's value at time scale 600 is sent |
| `PlayerSession.Session.SliderEditingEnded` | Sora/Utils/MediaPlayer/CustomPlayer/CustomPlayer.swift:473-476 | the action method sends a seek to the slider's value at time scale 600; no control in the file triggers it, so a slider release sends only the seek of SliderEditingChanged |
| `PlayerSession.Session.ViewWillDisappear` | Sora/Utils/MediaPlayer/CustomPlayer/CustomPlayer.swift:122-147 | pause is sent, the timer and observer stop, the rate is stored under the speed key, and the progress fraction is saved only when the current item has a positive duration |
| `PlayerSession.TogglePlayPauseTwice` | Sora/Utils/MediaPlayer/CustomPlayer/CustomPlayer.swift:462-471 | two presses restore isPlaying and send a pause and a play in the order the state dictates |
| `PlayerSession.TickAfterTeardown` | Sora/Utils/MediaPlayer/CustomPlayer/CustomPlayer.swift:122-130 | after teardown a tick and an update-timer firing change neither the position, the store, the caption nor watch-next |
| `PlayerSession.ThreeTickSession` | Sora/Utils/MediaPlayer/CustomPlayer/CustomPlayer.swift:383-394 | a session with nothing stored, three finite ticks and teardown leaves exactly the two stream keys with the last tick's values plus the speed key; it saves the last position over the duration, and a new session resumes there |

## Left out

- Layout, gestures, menus, animations and control toggling are not part of this model (CustomPlayer.swift:149-351, 446-450). They are presentation with no state of the session.
- Player creation is not part of this model: the URL check that stops the app on a bad URL, the Referer header and the player item (CustomPlayer.swift:80-89). The audio session setup (585-595) is also left out. These are calls into the media frameworks. The player is only the command log and the values passed to the callbacks.
- CMTime time scales: a seek records its seconds and its time scale (1 for the resume seek, 600 for the buttons and the slider). The rounding of the seconds to that time scale is not modelled.
- Floating point: times are exact reals, and the watch-next comparisons are exact, as they are on the source's doubles. NaN durations are `Indefinite`. A duration of positive infinity is not modelled separately. On it, the tick would do nothing and teardown would save a progress of 0.
- `PlayerSession.Session.ViewWillDisappear`: the rate is a parameter, so the model does not capture that the source reads it after pausing, when it is 0.
- Scheduling: the five-second auto-hide is a count of pending hides that `FireAutoHide` consumes. The rebuild of the slider on the main queue (CustomPlayer.swift:419-435) is applied at once, as the new slider range. Timer intervals are not modelled, and neither is the `weak self` check for a released controller.
- `PlayerSession.Session.SubtitlesLoaded` replaces the cue list; the subtitle loader's code is not part of this model, and the controller asks it to load only once.
- `Subtitles.CaptionAt`: the caption is the cue's text as loaded. The HTML stripping applied to it (CustomPlayer.swift:397) is not part of this model, and neither is the subtitle file loader or its parsing.
- Settings read from the user defaults: the "hide next button" setting is a boolean parameter of the tick. The "always landscape" setting is presentation and is left out.
- The continue-watching store is a sequence of saved progress fractions. The other fields of the saved item are not modelled, and neither is the store's own logic.
- The playback speed menu (CustomPlayer.swift:489-500) is left out: it sets the player's rate directly. The rate reaches the model only as the parameter of teardown.
- The watch-next and dismiss actions (CustomPlayer.swift:478-487) are left out: they pause and leave the screen, and that is navigation.
- The subtitle appearance settings are left out: font size, shadow, background and the custom font size prompt (CustomPlayer.swift:353-367, 502-567). They only restyle the label.
- The rest of the episode view and the app entry point are left out: the catalog fetch and URL handling are network and app wiring. Only the progress read-back at MediaInfoView.swift:143-145 is modelled.
