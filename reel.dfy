/**
 * The Reel playback state machine: a carousel of media items with one
 * current index, a progress percentage for the current item, play and mute
 * flags, and the timing drivers of its video and image children.
 *
 * The value `Playback` is the whole state; each `After...` function is one
 * transition of it, and class `Reel` owns the state and changes it in place
 * with one method per transition, each proved to perform exactly its
 * transition. Time is passed in explicitly, in milliseconds, where the
 * component reads the animation-frame clock.
 */
module ReelPlayback {
  import opened Wrappers

  /** `xs[i]` as JavaScript reads it: the element, or `undefined` off the ends. */
  function ElementAt<T>(xs: seq<T>, i: int): (r: Option<T>)
    ensures r.Some? <==> 0 <= i < |xs|
    ensures r.Some? ==> r.value == xs[i]
  {
    if 0 <= i < |xs| then Some(xs[i]) else None
  }

  datatype Playback = Playback(
    // the Reel store
    index: int,            // currentIndex
    progress: real,        // percent of the current item elapsed
    playing: bool,         // isPlaying
    muted: bool,           // isMuted
    duration: real,        // seconds, of the current item
    notified: seq<int>,    // every argument onIndexChange received, oldest first
    // ReelVideo
    videoDuration: real,   // its own copy of the media element's duration
    mediaPlaying: bool,    // true when play() was the last request made of the element, false after pause()
    videoFrameArmed: bool, // an animation-frame callback of the video loop is pending
    // ReelImage
    pausedProgress: real,  // progress recorded at the last pause or frame
    startTime: real,       // clock value (ms) at which the current item virtually started
    imageFrameArmed: bool  // an animation-frame callback of the image loop is pending
  )

  /** The state at mount; `defaultIndex` is taken as given, without a range check. */
  function Initial(defaultIndex: int, autoPlay: bool, defaultMuted: bool): Playback
  {
    Playback(defaultIndex, 0.0, autoPlay, defaultMuted, 0.0, [], 0.0, false, false, 0.0, 0.0, false)
  }

  /** The index lies inside the data. */
  predicate InRange(s: Playback, total: int)
  {
    0 <= s.index < total
  }

  // ---------------------------------------------------------------- the store

  /** setCurrentIndex: the index, then progress back to 0, then the callback. */
  function AfterSetIndex(s: Playback, i: int): Playback
  {
    s.(index := i, progress := 0.0, notified := s.notified + [i])
  }

  function AfterTogglePlay(s: Playback): Playback
  {
    s.(playing := !s.playing)
  }

  function AfterToggleMute(s: Playback): Playback
  {
    s.(muted := !s.muted)
  }

  // ----------------------------------------------------------- manual moves

  /** The Previous button: one step back, nothing at all at index 0 or below. */
  function AfterPrevious(s: Playback): Playback
  {
    if s.index > 0 then AfterSetIndex(s, s.index - 1) else s
  }

  /** The Next button: one step forward, nothing at all from the last index on. */
  function AfterNext(s: Playback, total: int): Playback
  {
    if s.index < total - 1 then AfterSetIndex(s, s.index + 1) else s
  }

  /** A click at `x` on a navigation surface `width` wide: its left half goes back, the rest forward. */
  function AfterClick(s: Playback, total: int, x: real, width: real): Playback
  {
    if x < width / 2.0 then AfterPrevious(s) else AfterNext(s, total)
  }

  /** The Previous button is disabled at index 0, where its handler changes nothing. */
  predicate PreviousDisabled(s: Playback)
    ensures PreviousDisabled(s) ==> AfterPrevious(s) == s
  {
    s.index == 0
  }

  /** The Next button is disabled at the last index, where its handler changes nothing. */
  predicate NextDisabled(s: Playback, total: int)
    ensures NextDisabled(s, total) ==> AfterNext(s, total) == s
  {
    s.index == total - 1
  }

  // ------------------------------------------------------------ auto-advance

  /** What a finished item does: the next index, or back to 0 from the last one. */
  function AfterAdvance(s: Playback, total: int): Playback
  {
    if s.index < total - 1 then AfterSetIndex(s, s.index + 1) else AfterSetIndex(s, 0)
  }

  // ------------------------------------------------------------ progress bar

  /** The fill, in percent, of progress segment `segment`. */
  function SegmentFill(segment: int, current: int, progress: real): (fill: real)
    ensures segment < current ==> fill == 100.0
    ensures segment == current ==> fill == progress
    ensures segment > current ==> fill == 0.0
    ensures 0.0 <= progress <= 100.0 ==> 0.0 <= fill <= 100.0
  {
    if segment < current then 100.0 else if segment == current then progress else 0.0
  }

  /** The fills of all `total` segments, in order. */
  function Fills(total: nat, current: int, progress: real): (fills: seq<real>)
    ensures |fills| == total
  {
    seq(total, k => SegmentFill(k, current, progress))
  }

  // ------------------------------------------------------------------ video

  /** Percent of the video played at `currentTime`: that percent of the duration is the time. */
  function VideoProgress(currentTime: real, videoDuration: real): (p: real)
    requires videoDuration != 0.0
    ensures p / 100.0 * videoDuration == currentTime
  {
    currentTime / videoDuration * 100.0
  }

  /** The media element reported its metadata: both durations take its value. */
  function AfterVideoLoaded(s: Playback, d: real): Playback
  {
    s.(videoDuration := d, duration := d)
  }

  /** A timeupdate event from the element, ignored while the video duration is 0. */
  function AfterVideoTimeUpdate(s: Playback, currentTime: real): Playback
  {
    if s.videoDuration == 0.0 then s
    else s.(progress := VideoProgress(currentTime, s.videoDuration))
  }

  /** The effect run on an index change: the element is rewound, progress cleared, and play requested while playing. */
  function AfterVideoIndexEffect(s: Playback): Playback
  {
    s.(progress := 0.0, mediaPlaying := s.playing || s.mediaPlaying)
  }

  /** The effect run on a play/pause change: the element is asked to mirror the flag. */
  function AfterVideoPlayEffect(s: Playback): Playback
  {
    s.(mediaPlaying := s.playing)
  }

  /** The effect that (re)starts the video frame loop: the old callback is cancelled, a new one armed only while playing. */
  function AfterVideoLoopEffect(s: Playback): Playback
  {
    s.(videoFrameArmed := s.playing)
  }

  /** The pending video frame callback fires; the element reports its time and whether it is paused or ended. */
  function AfterVideoFrame(s: Playback, currentTime: real, elementPaused: bool, elementEnded: bool): Playback
  {
    if !s.videoFrameArmed then s
    else if s.videoDuration != 0.0 && !elementPaused && !elementEnded then
      s.(progress := VideoProgress(currentTime, s.videoDuration), videoFrameArmed := true)
    else
      s.(videoFrameArmed := false)
  }

  /** The element's ended event: the reel advances, wrapping after the last item. */
  function AfterVideoEnded(s: Playback, total: int): Playback
  {
    AfterAdvance(s, total)
  }

  // ------------------------------------------------------------------ image

  /** Percent of an item of `duration` seconds elapsed at clock `t` when it virtually started at `start`. */
  function ImageProgressAt(start: real, duration: real, t: real): (p: real)
    requires duration != 0.0
    ensures start + p / 100.0 * duration * 1000.0 == t
  {
    ((t - start) / 1000.0) / duration * 100.0
  }

  /** The virtual start that makes an item resume from `paused` percent at clock `now`. */
  function ResumeStart(now: real, paused: real, duration: real): (start: real)
    ensures duration != 0.0 ==> ImageProgressAt(start, duration, now) == paused
  {
    now - (paused * duration / 100.0) * 1000.0
  }

  /** The effect run on an index or duration change: the image's duration goes to the store and its progress is cleared. */
  function AfterImageReset(s: Playback, d: real): Playback
  {
    s.(duration := d, progress := 0.0, pausedProgress := 0.0)
  }

  /** The playing branch of the play/pause effect: move the start back by the recorded progress and arm a frame. */
  function AfterImageStart(s: Playback, now: real): Playback
  {
    s.(startTime := ResumeStart(now, s.pausedProgress, s.duration), imageFrameArmed := true)
  }

  /** The paused branch of the play/pause effect: the pending frame is cancelled and the progress recorded. */
  function AfterImagePause(s: Playback): Playback
  {
    s.(pausedProgress := s.progress, imageFrameArmed := false)
  }

  /** The play/pause effect as a whole. */
  function AfterImagePlayEffect(s: Playback, now: real): Playback
  {
    if s.playing then AfterImageStart(s, now) else AfterImagePause(s)
  }

  /**
   * The pending image frame callback fires at clock `t`: below 100 percent it
   * stores the progress and re-arms, otherwise it advances the reel.
   */
  function AfterImageFrame(s: Playback, total: int, t: real): Playback
    requires s.imageFrameArmed ==> s.duration != 0.0
  {
    if !s.imageFrameArmed then s
    else
      var p := ImageProgressAt(s.startTime, s.duration, t);
      if p >= 100.0 then AfterAdvance(s.(imageFrameArmed := false), total)
      else s.(progress := p, pausedProgress := p, imageFrameArmed := true)
  }

  // ============================================================== properties

  /** The three manual moves are clamped: one step at most, never out of the data. */
  lemma ManualMovesClamped(s: Playback, total: int, x: real, width: real)
    requires InRange(s, total)
    ensures AfterPrevious(s).index == if s.index == 0 then 0 else s.index - 1
    ensures AfterNext(s, total).index == if s.index == total - 1 then s.index else s.index + 1
    ensures InRange(AfterPrevious(s), total) && InRange(AfterNext(s, total), total)
    ensures InRange(AfterClick(s, total, x, width), total)
  {
  }

  /** A disabled button is exactly a button whose handler would change nothing. */
  lemma DisabledIffNoOp(s: Playback, total: int)
    requires InRange(s, total)
    ensures PreviousDisabled(s) <==> AfterPrevious(s) == s
    ensures NextDisabled(s, total) <==> AfterNext(s, total) == s
  {
    if !PreviousDisabled(s) {
      assert |AfterPrevious(s).notified| == |s.notified| + 1;
    }
    if !NextDisabled(s, total) {
      assert |AfterNext(s, total).notified| == |s.notified| + 1;
    }
  }

  /** With an unvalidated default index past the end, Next stays enabled although it does nothing. */
  lemma NextEnabledPastEnd(s: Playback, total: int)
    requires s.index > total - 1
    ensures !NextDisabled(s, total) && AfterNext(s, total) == s
  {
  }

  /** A move changes the index and clears the progress in one step, and reports exactly the new index. */
  lemma MoveResetsProgress(s: Playback, total: int)
    requires InRange(s, total) && total > 1
    ensures var n := AfterNext(s, total);
      n != s ==> n.index == s.index + 1 && n.progress == 0.0 && n.notified == s.notified + [n.index]
    ensures var p := AfterPrevious(s);
      p != s ==> p.index == s.index - 1 && p.progress == 0.0 && p.notified == s.notified + [p.index]
  {
  }

  /** Auto-advance is a step modulo the item count, so it keeps a non-negative index inside the data. */
  lemma AdvanceWraps(s: Playback, total: int)
    requires total > 0 && s.index >= 0
    ensures InRange(AfterAdvance(s, total), total)
    ensures InRange(s, total) ==> AfterAdvance(s, total).index == (s.index + 1) % total
    ensures AfterAdvance(s, total).progress == 0.0
  {
    if InRange(s, total) && s.index == total - 1 {
      assert (s.index + 1) % total == total % total == 0;
    }
  }

  /** The bar: full before the current segment, empty after it, so fills never increase from left to right. */
  lemma FillsNonIncreasing(total: nat, current: int, progress: real)
    requires 0.0 <= progress <= 100.0
    ensures forall j, k :: 0 <= j <= k < total ==> Fills(total, current, progress)[j] >= Fills(total, current, progress)[k]
    ensures forall k :: 0 <= k < total ==> 0.0 <= Fills(total, current, progress)[k] <= 100.0
  {
  }

  /** After an index change the bar shows the segments before it full and the rest empty: no stale progress. */
  lemma FillsAfterIndexChange(s: Playback, total: nat, i: int)
    requires 0 <= i < total
    ensures var t := AfterSetIndex(s, i);
      forall k :: 0 <= k < total ==> Fills(total, t.index, t.progress)[k] == (if k < i then 100.0 else 0.0)
  {
  }

  /** Video progress is the fraction of the media played, in percent. */
  lemma VideoProgressBounds(currentTime: real, videoDuration: real)
    requires 0.0 <= currentTime <= videoDuration && videoDuration > 0.0
    ensures 0.0 <= VideoProgress(currentTime, videoDuration) <= 100.0
    ensures VideoProgress(currentTime, videoDuration) == 100.0 <==> currentTime == videoDuration
  {
    var q := currentTime / videoDuration;
    assert q * videoDuration == currentTime;
    assert 0.0 <= q <= 1.0;
    assert VideoProgress(currentTime, videoDuration) == q * 100.0;
    if currentTime == videoDuration {
      assert (q - 1.0) * videoDuration == 0.0;
    }
  }

  /** Both video writers of the progress compute the same value; neither ever changes the index. */
  lemma VideoWritersAgree(s: Playback, currentTime: real)
    requires s.videoDuration != 0.0 && s.videoFrameArmed
    ensures AfterVideoFrame(s, currentTime, false, false).progress == AfterVideoTimeUpdate(s, currentTime).progress
    ensures AfterVideoFrame(s, currentTime, false, false).index == AfterVideoTimeUpdate(s, currentTime).index == s.index
  {
  }

  /** Resuming: a frame at the very clock value the start was computed at sees exactly the recorded progress. */
  lemma ResumeFromPaused(now: real, paused: real, duration: real)
    requires duration != 0.0
    ensures ImageProgressAt(ResumeStart(now, paused, duration), duration, now) == paused
  {
    var elapsed := paused * duration / 100.0;
    calc {
      ImageProgressAt(ResumeStart(now, paused, duration), duration, now);
      ((elapsed * 1000.0) / 1000.0) / duration * 100.0;
      { assert (elapsed * 1000.0) / 1000.0 == elapsed; }
      elapsed / duration * 100.0;
      { assert elapsed == (paused / 100.0) * duration; }
      ((paused / 100.0) * duration) / duration * 100.0;
      { assert ((paused / 100.0) * duration) / duration == paused / 100.0; }
      paused;
    }
  }

  /** An image item completes exactly when its whole duration has elapsed since the virtual start. */
  lemma ImageCompletesAfterDuration(start: real, duration: real, t: real)
    requires duration > 0.0
    ensures ImageProgressAt(start, duration, t) >= 100.0 <==> t - start >= duration * 1000.0
  {
    var p := ImageProgressAt(start, duration, t);
    assert p * duration * 10.0 == t - start;
  }

  /** Image progress does not run backwards as the clock advances. */
  lemma ImageProgressMonotone(start: real, duration: real, t1: real, t2: real)
    requires duration > 0.0 && t1 <= t2
    ensures ImageProgressAt(start, duration, t1) <= ImageProgressAt(start, duration, t2)
  {
    var p1, p2 := ImageProgressAt(start, duration, t1), ImageProgressAt(start, duration, t2);
    assert p1 * duration * 10.0 == t1 - start;
    assert p2 * duration * 10.0 == t2 - start;
  }

  /** An image frame never stores a progress of 100 or more: it advances instead, and progress drops to 0. */
  lemma ImageFrameBelowFull(s: Playback, total: int, t: real)
    requires s.imageFrameArmed && s.duration != 0.0
    ensures AfterImageFrame(s, total, t).progress < 100.0
  {
  }

  /**
   * Pause, wait, resume: pausing records the progress, and the first frame
   * after playing again, at the clock value the effect ran at, shows that same
   * progress on the same item.
   */
  lemma PauseResumeKeepsProgress(s: Playback, total: int, later: real)
    requires s.playing && s.duration != 0.0
    requires 0.0 <= s.progress < 100.0
    ensures var paused := AfterImagePlayEffect(AfterTogglePlay(s), later);
      var resumed := AfterImagePlayEffect(AfterTogglePlay(paused), later);
      var frame := AfterImageFrame(resumed, total, later);
      frame.progress == s.progress && frame.index == s.index && frame.imageFrameArmed
  {
    ResumeFromPaused(later, s.progress, s.duration);
  }

  /** An index or duration change starts the new item from 0, whatever was recorded before. */
  lemma ResetStartsFromZero(s: Playback, total: int, d: real, now: real)
    requires d != 0.0 && s.playing
    ensures var r := AfterImagePlayEffect(AfterImageReset(s, d), now);
      AfterImageFrame(r, total, now).progress == 0.0 && AfterImageFrame(r, total, now).index == s.index
  {
    ResumeFromPaused(now, 0.0, d);
  }

  /** A frame at or past the deadline moves the reel on by the auto-advance rule and stops the image loop. */
  lemma ImageFrameAtDeadlineAdvances(s: Playback, total: int, t: real)
    requires s.imageFrameArmed && s.duration > 0.0
    requires t - s.startTime >= s.duration * 1000.0
    ensures AfterImageFrame(s, total, t) == AfterAdvance(s, total).(imageFrameArmed := false)
  {
    ImageCompletesAfterDuration(s.startTime, s.duration, t);
  }

  /** Toggling either flag twice restores the state. */
  lemma TogglesInvolutive(s: Playback)
    ensures AfterTogglePlay(AfterTogglePlay(s)) == s
    ensures AfterToggleMute(AfterToggleMute(s)) == s
  {
  }

  // ================================================================= the Reel

  /** The Reel component and its media children, sharing one store. */
  class Reel<T> {
    const data: seq<T>

    var currentIndex: int
    var progress: real
    var isPlaying: bool
    var isMuted: bool
    var duration: real
    var notified: seq<int>

    var videoDuration: real
    var mediaPlaying: bool
    var videoFrameArmed: bool

    var pausedProgress: real
    var startTime: real
    var imageFrameArmed: bool

    function State(): Playback
      reads this
    {
      Playback(currentIndex, progress, isPlaying, isMuted, duration, notified,
               videoDuration, mediaPlaying, videoFrameArmed,
               pausedProgress, startTime, imageFrameArmed)
    }

    /** The item shown now; none when the index is outside the data. */
    function CurrentItem(): (item: Option<T>)
      reads this
      ensures item.Some? <==> InRange(State(), |data|)
      ensures item.Some? ==> item.value == data[currentIndex]
    {
      ElementAt(data, currentIndex)
    }

    constructor (data: seq<T>, defaultIndex: int := 0, autoPlay: bool := true, defaultMuted: bool := true)
      ensures this.data == data
      ensures State() == Initial(defaultIndex, autoPlay, defaultMuted)
    {
      this.data := data;
      currentIndex, progress, isPlaying, isMuted, duration, notified := defaultIndex, 0.0, autoPlay, defaultMuted, 0.0, [];
      videoDuration, mediaPlaying, videoFrameArmed := 0.0, false, false;
      pausedProgress, startTime, imageFrameArmed := 0.0, 0.0, false;
    }

    method SetIndex(i: int)
      modifies this
      ensures State() == AfterSetIndex(old(State()), i)
    {
      currentIndex := i;
      progress := 0.0;
      notified := notified + [i];
    }

    method TogglePlay()
      modifies this
      ensures State() == AfterTogglePlay(old(State()))
    {
      isPlaying := !isPlaying;
    }

    method ToggleMute()
      modifies this
      ensures State() == AfterToggleMute(old(State()))
    {
      isMuted := !isMuted;
    }

    method Previous()
      modifies this
      ensures State() == AfterPrevious(old(State()))
    {
      if currentIndex > 0 {
        SetIndex(currentIndex - 1);
      }
    }

    method Next()
      modifies this
      ensures State() == AfterNext(old(State()), |data|)
    {
      if currentIndex < |data| - 1 {
        SetIndex(currentIndex + 1);
      }
    }

    method Click(x: real, width: real)
      modifies this
      ensures State() == AfterClick(old(State()), |data|, x, width)
    {
      if x < width / 2.0 {
        if currentIndex > 0 {
          SetIndex(currentIndex - 1);
        }
      } else if currentIndex < |data| - 1 {
        SetIndex(currentIndex + 1);
      }
    }

    method Advance()
      modifies this
      ensures State() == AfterAdvance(old(State()), |data|)
    {
      if currentIndex < |data| - 1 {
        SetIndex(currentIndex + 1);
      } else {
        SetIndex(0);
      }
    }

    method VideoLoaded(d: real)
      modifies this
      ensures State() == AfterVideoLoaded(old(State()), d)
    {
      videoDuration := d;
      duration := d;
    }

    method VideoTimeUpdate(currentTime: real)
      modifies this
      ensures State() == AfterVideoTimeUpdate(old(State()), currentTime)
    {
      if videoDuration != 0.0 {
        progress := currentTime / videoDuration * 100.0;
      }
    }

    method VideoIndexEffect()
      modifies this
      ensures State() == AfterVideoIndexEffect(old(State()))
    {
      progress := 0.0;
      if isPlaying {
        mediaPlaying := true;
      }
    }

    method VideoPlayEffect()
      modifies this
      ensures State() == AfterVideoPlayEffect(old(State()))
    {
      mediaPlaying := isPlaying;
    }

    method VideoLoopEffect()
      modifies this
      ensures State() == AfterVideoLoopEffect(old(State()))
    {
      videoFrameArmed := false;
      if isPlaying {
        videoFrameArmed := true;
      }
    }

    method VideoFrame(currentTime: real, elementPaused: bool, elementEnded: bool)
      modifies this
      ensures State() == AfterVideoFrame(old(State()), currentTime, elementPaused, elementEnded)
    {
      if videoFrameArmed {
        videoFrameArmed := false;
        if videoDuration != 0.0 && !elementPaused && !elementEnded {
          progress := currentTime / videoDuration * 100.0;
          videoFrameArmed := true;
        }
      }
    }

    method VideoEnded()
      modifies this
      ensures State() == AfterVideoEnded(old(State()), |data|)
    {
      Advance();
    }

    method ImageReset(d: real)
      modifies this
      ensures State() == AfterImageReset(old(State()), d)
    {
      duration := d;
      progress := 0.0;
      pausedProgress := 0.0;
    }

    method ImageStart(now: real)
      requires isPlaying
      modifies this
      ensures State() == AfterImageStart(old(State()), now)
    {
      var elapsedTime := pausedProgress * duration / 100.0;
      startTime := now - elapsedTime * 1000.0;
      imageFrameArmed := true;
    }

    method ImagePause()
      requires !isPlaying
      modifies this
      ensures State() == AfterImagePause(old(State()))
    {
      imageFrameArmed := false;
      pausedProgress := progress;
    }

    method ImagePlayEffect(now: real)
      modifies this
      ensures State() == AfterImagePlayEffect(old(State()), now)
    {
      if isPlaying {
        ImageStart(now);
      } else {
        ImagePause();
      }
    }

    method ImageFrame(t: real)
      requires imageFrameArmed ==> duration != 0.0
      modifies this
      ensures State() == AfterImageFrame(old(State()), |data|, t)
    {
      if imageFrameArmed {
        imageFrameArmed := false;
        var elapsed := (t - startTime) / 1000.0;
        var newProgress := elapsed / duration * 100.0;
        if newProgress >= 100.0 {
          Advance();
        } else {
          progress := newProgress;
          pausedProgress := newProgress;
          imageFrameArmed := true;
        }
      }
    }
  }

  /**
   * Three images of 5 seconds each, playing from index 0 with the clock at 0:
   * a frame at 2.5 s shows half the first item, the effect re-run by that
   * progress re-anchors the start, and each frame 5.1 s after an item started
   * moves on, the third one back to index 0.
   */
  method ThreeImagesScenario() returns (visited: seq<int>, halfway: real)
    ensures visited == [1, 2, 0]
    ensures halfway == 50.0
  {
    var reel := new Reel<string>(["a", "b", "c"]);
    reel.ImageReset(5.0);
    reel.ImagePlayEffect(0.0);
    reel.ImageFrame(2500.0);
    halfway := reel.progress;
    reel.ImagePlayEffect(2500.0);
    assert reel.startTime == 0.0;
    reel.ImageFrame(5100.0);
    visited := [reel.currentIndex];

    reel.ImageReset(5.0);
    reel.ImagePlayEffect(5100.0);
    reel.ImageFrame(10200.0);
    visited := visited + [reel.currentIndex];

    reel.ImageReset(5.0);
    reel.ImagePlayEffect(10200.0);
    reel.ImageFrame(15300.0);
    visited := visited + [reel.currentIndex];
  }
}
