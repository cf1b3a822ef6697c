/**
  The playback session of the custom media player view controller, taken out
  of the UI and media frameworks: its mutable fields, and one method per
  operation that updates them (creation with resume, loading the view, the
  periodic time observer, the one-second update timer, the seek buttons, the
  play/pause toggle, the progress slider and teardown).

  The media player is seen only through the commands the session issues to it
  (`commands`) and the position and item it reports, which are parameters of
  the callbacks. The user defaults store is the map `defaults`; the
  continue-watching list is the sequence of progress fractions saved to it.
 */
module PlayerSession {

  import opened Optional
  import opened Subtitles
  import opened PlaybackRules

  /** A request sent to the media player; a seek carries its time scale. */
  datatype PlayerCommand = Seek(seconds: real, timescale: nat) | Play | Pause

  /** Time scale of the resume seek issued on creation. */
  const ResumeTimescale: nat := 1

  /** Time scale of the seeks issued by the buttons and the slider. */
  const ControlTimescale: nat := 600

  class Session {
    /** Identity of the stream; the persisted keys are derived from it. */
    const fullUrl: string

    var isPlaying: bool
    var currentTimeVal: real
    var duration: real
    var showWatchNextButton: bool
    var watchNextHidden: bool
    /** Five-second auto-hide callbacks scheduled and not yet run. */
    var pendingAutoHides: nat
    var sliderValue: real
    var sliderRangeEnd: real
    var isSliderEditing: bool
    var subtitleText: string
    var cues: seq<Cue>

    /** The user defaults store. */
    var defaults: map<string, real>
    /** Progress fractions saved to the continue-watching list. */
    var savedProgress: seq<real>
    /** Whether the periodic time observer is registered with the player. */
    var observerRegistered: bool
    /** Whether the one-second update timer is scheduled. */
    var updateTimerRunning: bool
    /** Every request sent to the player, oldest first. */
    var commands: seq<PlayerCommand>

    /**
      The watch-next button is only ever visible while the session allows it
      and a non-zero duration has been recorded; the slider range is non-empty.
     */
    ghost predicate Valid()
      reads this
    {
      && (!watchNextHidden ==> showWatchNextButton && duration != 0.0)
      && sliderRangeEnd > 0.0
    }

    /**
      Creates the session for a stream, seeking to the stored last position
      when one greater than zero is stored. Whether watch next may be offered
      is set by the presenter before the player is shown (true by default).
     */
    constructor (fullUrl: string, defaults: map<string, real>, showWatchNextButton: bool)
      ensures Valid()
      ensures this.fullUrl == fullUrl && this.defaults == defaults
      ensures commands == match ResumeSeek(defaults, fullUrl)
                          case Some(t) => [Seek(t, ResumeTimescale)]
                          case None => []
      ensures isPlaying && currentTimeVal == 0.0 && duration == 0.0
      ensures this.showWatchNextButton == showWatchNextButton
      ensures watchNextHidden && pendingAutoHides == 0
      ensures sliderValue == 0.0 && sliderRangeEnd == 1.0 && !isSliderEditing && subtitleText == "" && cues == []
      ensures savedProgress == [] && !observerRegistered && !updateTimerRunning
    {
      this.fullUrl := fullUrl;
      this.defaults := defaults;
      isPlaying := true;
      currentTimeVal := 0.0;
      duration := 0.0;
      this.showWatchNextButton := showWatchNextButton;
      watchNextHidden := true;
      pendingAutoHides := 0;
      sliderValue := 0.0;
      sliderRangeEnd := 1.0;
      isSliderEditing := false;
      subtitleText := "";
      cues := [];
      savedProgress := [];
      observerRegistered := false;
      updateTimerRunning := false;
      match ResumeSeek(defaults, fullUrl)
      case Some(t) => commands := [Seek(t, ResumeTimescale)];
      case None => commands := [];
    }

    /**
      Loading the view sizes the slider to the recorded duration, registers
      the periodic time observer, starts the update timer and starts playback.
     */
    method ViewDidLoad()
      requires Valid()
      modifies this`sliderRangeEnd, this`observerRegistered, this`updateTimerRunning, this`commands
      ensures Valid()
      ensures sliderRangeEnd == SliderRangeEnd(duration)
      ensures observerRegistered && updateTimerRunning
      ensures commands == old(commands) + [Play]
    {
      sliderRangeEnd := SliderRangeEnd(duration);
      observerRegistered := true;
      updateTimerRunning := true;
      commands := commands + [Play];
    }

    /** The subtitle loader publishes the parsed cues of the subtitle file. */
    method SubtitlesLoaded(loaded: seq<Cue>)
      modifies this`cues
      ensures cues == loaded
    {
      cues := loaded;
    }

    /**
      One call of the periodic time observer, at player time `time`, with the
      player's current item and the user's "hide next button" setting.

      Nothing happens while the observer is not registered, when there is no
      current item or when its duration is not finite. Otherwise the tick
      records position and duration, moves the slider unless the user is
      dragging it, persists both values, shows the caption of the first active
      cue and shows or hides watch next; with the setting on, showing it also
      schedules an auto-hide five seconds later.
     */
    method PeriodicTick(time: real, item: PlayerItem, hideNextButton: bool)
      requires Valid()
      modifies this`currentTimeVal, this`duration, this`sliderValue, this`sliderRangeEnd,
               this`defaults, this`subtitleText, this`watchNextHidden, this`pendingAutoHides
      ensures Valid()
      ensures !(old(observerRegistered) && item.Item? && item.duration.Finite?) ==> unchanged(this)
      ensures old(observerRegistered) && item.Item? && item.duration.Finite? ==>
                var dur := item.duration.seconds;
                var visible := WatchNextVisible(time, dur, showWatchNextButton);
                && currentTimeVal == time
                && duration == dur
                && sliderValue == (if isSliderEditing then old(sliderValue) else time)
                && defaults == Persist(old(defaults), fullUrl, time, dur)
                && subtitleText == CaptionAt(cues, time)
                && watchNextHidden == !visible
                && pendingAutoHides == old(pendingAutoHides) + (if visible && hideNextButton then 1 else 0)
                && sliderRangeEnd == SliderRangeEnd(dur)
    {
      if !observerRegistered || !item.Item? || !item.duration.Finite? {
        return;
      }
      currentTimeVal := time;
      duration := item.duration.seconds;
      if !isSliderEditing {
        sliderValue := currentTimeVal;
      }
      defaults := Persist(defaults, fullUrl, currentTimeVal, duration);
      subtitleText := CaptionAt(cues, currentTimeVal);
      if WatchNextVisible(currentTimeVal, duration, showWatchNextButton) {
        watchNextHidden := false;
        if hideNextButton {
          pendingAutoHides := pendingAutoHides + 1;
        }
      } else {
        watchNextHidden := true;
      }
      sliderRangeEnd := SliderRangeEnd(duration);
    }

    /** A scheduled auto-hide runs: the watch-next button is hidden. */
    method FireAutoHide()
      requires Valid()
      requires pendingAutoHides > 0
      modifies this`watchNextHidden, this`pendingAutoHides
      ensures Valid()
      ensures watchNextHidden && pendingAutoHides == old(pendingAutoHides) - 1
    {
      watchNextHidden := true;
      pendingAutoHides := pendingAutoHides - 1;
    }

    /** The one-second update timer copies the player's current time, while scheduled. */
    method UpdateTimerFired(playerTime: real)
      modifies this`currentTimeVal
      ensures currentTimeVal == if updateTimerRunning then playerTime else old(currentTimeVal)
    {
      if updateTimerRunning {
        currentTimeVal := playerTime;
      }
    }

    /** The backward button: ten seconds back, clamped at 0, and a seek there. */
    method SeekBackward()
      modifies this`currentTimeVal, this`commands
      ensures currentTimeVal == SeekBackwardTarget(old(currentTimeVal))
      ensures commands == old(commands) + [Seek(currentTimeVal, ControlTimescale)]
    {
      currentTimeVal := SeekBackwardTarget(currentTimeVal);
      commands := commands + [Seek(currentTimeVal, ControlTimescale)];
    }

    /** The forward button: ten seconds on, clamped at the recorded duration, and a seek there. */
    method SeekForward()
      modifies this`currentTimeVal, this`commands
      ensures currentTimeVal == SeekForwardTarget(old(currentTimeVal), duration)
      ensures commands == old(commands) + [Seek(currentTimeVal, ControlTimescale)]
    {
      currentTimeVal := SeekForwardTarget(currentTimeVal, duration);
      commands := commands + [Seek(currentTimeVal, ControlTimescale)];
    }

    /** Pauses a playing player or resumes a paused one, and flips `isPlaying`. */
    method TogglePlayPause()
      modifies this`isPlaying, this`commands
      ensures isPlaying == !old(isPlaying)
      ensures commands == old(commands) + [if old(isPlaying) then Pause else Play]
    {
      if isPlaying {
        commands := commands + [Pause];
      } else {
        commands := commands + [Play];
      }
      isPlaying := !isPlaying;
    }

    /** The user drags the slider to `value`. */
    method SliderMoved(value: real)
      modifies this`sliderValue
      ensures sliderValue == value
    {
      sliderValue := value;
    }

    /** The slider starts or stops being dragged; on release the player seeks to its value. */
    method SliderEditingChanged(editing: bool)
      modifies this`isSliderEditing, this`commands
      ensures isSliderEditing == editing
      ensures commands == old(commands) + (if editing then [] else [Seek(sliderValue, ControlTimescale)])
    {
      isSliderEditing := editing;
      if !editing {
        commands := commands + [Seek(sliderValue, ControlTimescale)];
      }
    }

    /**
      The slider's editing-ended action method: a seek to the slider's value.
      No control is wired to it; releasing the slider seeks through
      `SliderEditingChanged` alone.
     */
    method SliderEditingEnded()
      modifies this`commands
      ensures commands == old(commands) + [Seek(sliderValue, ControlTimescale)]
    {
      commands := commands + [Seek(sliderValue, ControlTimescale)];
    }

    /**
      Teardown, given the player's rate and current item at that moment:
      pauses the player, stops the update timer, removes the time observer,
      stores the rate, and saves the progress fraction of the recorded
      position when the current item has a positive duration.
     */
    method ViewWillDisappear(rate: real, item: PlayerItem)
      requires Valid()
      modifies this`commands, this`updateTimerRunning, this`observerRegistered,
               this`defaults, this`savedProgress
      ensures Valid()
      ensures commands == old(commands) + [Pause]
      ensures !updateTimerRunning && !observerRegistered
      ensures defaults == old(defaults)[PlaybackSpeedKey := rate]
      ensures savedProgress == old(savedProgress) +
                match ProgressFraction(currentTimeVal, item)
                case Some(p) => [p]
                case None => []
    {
      commands := commands + [Pause];
      updateTimerRunning := false;
      observerRegistered := false;
      defaults := defaults[PlaybackSpeedKey := rate];
      match ProgressFraction(currentTimeVal, item)
      case Some(p) => savedProgress := savedProgress + [p];
      case None =>
    }
  }

  /** Two presses of play/pause leave the playing state as it was. */
  method TogglePlayPauseTwice(s: Session)
    modifies s
    ensures s.isPlaying == old(s.isPlaying)
    ensures s.commands == old(s.commands) + [if old(s.isPlaying) then Pause else Play,
                                             if old(s.isPlaying) then Play else Pause]
  {
    s.TogglePlayPause();
    s.TogglePlayPause();
  }

  /**
    Once the view has disappeared, a time-observer callback that still
    arrives changes nothing, and neither does the update timer.
   */
  method TickAfterTeardown(s: Session, rate: real, item: PlayerItem, time: real, hideNextButton: bool)
    requires s.Valid()
    modifies s
    ensures s.Valid()
    ensures s.defaults == old(s.defaults)[PlaybackSpeedKey := rate]
    ensures s.currentTimeVal == old(s.currentTimeVal)
    ensures s.watchNextHidden == old(s.watchNextHidden) && s.subtitleText == old(s.subtitleText)
  {
    s.ViewWillDisappear(rate, item);
    s.PeriodicTick(time, item, hideNextButton);
    s.UpdateTimerFired(time);
  }

  /**
    A whole session for a stream with nothing stored: creation, loading,
    three finite ticks and teardown. The store then holds one position and
    one duration for the stream, those of the last tick, the saved progress
    is the last position over the final duration, and a new session for the
    stream resumes at that position.
   */
  method ThreeTickSession(fullUrl: string, t1: real, t2: real, t3: real, dur: real, rate: real)
    returns (s: Session)
    requires 0.0 < t3 <= dur
    ensures s.defaults.Keys == {LastPlayedKey(fullUrl), TotalTimeKey(fullUrl), PlaybackSpeedKey}
    ensures s.defaults[LastPlayedKey(fullUrl)] == t3 && s.defaults[TotalTimeKey(fullUrl)] == dur
    ensures s.defaults[PlaybackSpeedKey] == rate
    ensures s.savedProgress == [t3 / dur]
    ensures ResumeSeek(s.defaults, fullUrl) == Some(t3)
    ensures s.commands == [Play, Pause]
  {
    s := new Session(fullUrl, map[], true);
    s.ViewDidLoad();
    var item := Item(Finite(dur));
    s.PeriodicTick(t1, item, false);
    s.PeriodicTick(t2, item, false);
    s.PeriodicTick(t3, item, false);
    assert s.defaults.Keys == {LastPlayedKey(fullUrl), TotalTimeKey(fullUrl)};
    assert s.defaults[LastPlayedKey(fullUrl)] == t3;
    KeysDistinct(fullUrl, fullUrl);
    s.ViewWillDisappear(rate, item);
  }
}
