/**
 * The script each widget window runs: frame animation with a one-shot timer,
 * play/pause and frame stepping, the font-size buttons, the controls toggle,
 * and the drag gesture that turns mouse movement into relocation deltas.
 *
 * The timer is abstract: `pendingTimers` counts scheduled `showNextFrame`
 * callbacks and `pendingDelay` is the delay the latest one was given.
 */
module WidgetSession {
  import opened Wrappers

  const DefaultDelay: int := 100
  const InitialFontSize: int := 6
  const MinFontSize: int := 2
  const MaxFontSize: int := 20
  const DragThreshold: int := 3

  // ---------------------------------------------------------------------
  // Frame arithmetic
  // ---------------------------------------------------------------------

  /** `(currentFrame + 1) % totalFrames`. */
  function NextIndex(i: int, n: int): (r: int)
    requires 0 <= i && 0 < n
    ensures 0 <= r < n
    ensures i < n - 1 ==> r == i + 1
    ensures i == n - 1 ==> r == 0
  {
    (i + 1) % n
  }

  /** `(currentFrame - 1 + totalFrames) % totalFrames`. */
  function PrevIndex(i: int, n: int): (r: int)
    requires 0 <= i < n
    ensures 0 <= r < n
    ensures 0 < i ==> r == i - 1
    ensures i == 0 ==> r == n - 1
  {
    (i - 1 + n) % n
  }

  /** Stepping back undoes stepping forward. */
  lemma PrevAfterNext(i: int, n: int)
    requires 0 <= i < n
    ensures PrevIndex(NextIndex(i, n), n) == i
  {
  }

  /** Stepping forward undoes stepping back. */
  lemma NextAfterPrev(i: int, n: int)
    requires 0 <= i < n
    ensures NextIndex(PrevIndex(i, n), n) == i
  {
  }

  /** The frame reached after `k` forward steps from `i`. */
  function StepForward(i: int, n: int, k: nat): (r: int)
    requires 0 <= i < n
    ensures 0 <= r < n
    decreases k
  {
    if k == 0 then i else NextIndex(StepForward(i, n, k - 1), n)
  }

  /** Short of the last frame, `k` forward steps just add `k`. */
  lemma {:induction false} StepForwardWithoutWrap(i: int, n: int, k: nat)
    requires 0 <= i < n && i + k < n
    ensures StepForward(i, n, k) == i + k
    decreases k
  {
    if k > 0 {
      StepForwardWithoutWrap(i, n, k - 1);
    }
  }

  /** Stepping `a` then `b` times is stepping `a + b` times. */
  lemma {:induction false} StepForwardAdds(i: int, n: int, a: nat, b: nat)
    requires 0 <= i < n
    ensures StepForward(i, n, a + b) == StepForward(StepForward(i, n, a), n, b)
    decreases b
  {
    if b > 0 {
      StepForwardAdds(i, n, a, b - 1);
    }
  }

  /** `n` forward steps bring the animation back to the frame it started from, whatever that was. */
  lemma FullCycleReturns(i: int, n: int)
    requires 0 <= i < n
    ensures StepForward(i, n, n) == i
  {
    var toLast := n - 1 - i;
    StepForwardWithoutWrap(i, n, toLast);
    assert StepForward(i, n, toLast + 1) == 0;
    StepForwardWithoutWrap(0, n, i);
    StepForwardAdds(i, n, toLast + 1, i);
  }

  /**
   * `gifDelays[i] || 100`: the frame's delay when it exists and is not 0,
   * otherwise 100. A negative delay is kept as it is.
   */
  function FrameDelay(delays: seq<int>, i: int): (r: int)
    ensures r != 0
    ensures 0 <= i < |delays| && delays[i] != 0 ==> r == delays[i]
    ensures !(0 <= i < |delays|) || delays[i] == 0 ==> r == DefaultDelay
  {
    if 0 <= i < |delays| && delays[i] != 0 then delays[i] else DefaultDelay
  }

  /** Frames beyond the end of a shorter delay list are scheduled with the default delay. */
  lemma MissingDelaysUseDefault(delays: seq<int>, frames: nat, i: int)
    requires |delays| <= i < frames
    ensures FrameDelay(delays, i) == DefaultDelay
  {
  }

  /**
   * What `getFrame(index)` returns: nothing for a static widget; the frame when
   * it exists and is not empty; otherwise frame 0, or nothing when there are no frames.
   */
  function FrameText(isGif: bool, frames: seq<string>, index: int): (r: string)
    ensures !isGif ==> r == ""
    ensures isGif && |frames| > 0 ==> r in frames
    ensures isGif && |frames| == 0 ==> r == ""
    ensures isGif && 0 <= index < |frames| && frames[index] != "" ==> r == frames[index]
    ensures isGif && |frames| > 0 ==> r == frames[0] || (0 <= index < |frames| && r == frames[index] != "")
  {
    if !isGif then ""
    else if 0 <= index < |frames| && frames[index] != "" then frames[index]
    else if |frames| > 0 then frames[0]
    else ""
  }

  /** Frame 0 is shown as it is, empty or not. */
  lemma FirstFrameShownAsIs(frames: seq<string>)
    requires |frames| > 0
    ensures FrameText(true, frames, 0) == frames[0]
  {
  }

  /** `Math.abs(deltaX) > 3 || Math.abs(deltaY) > 3`. */
  predicate ExceedsThreshold(deltaX: int, deltaY: int) {
    deltaX > DragThreshold || deltaX < -DragThreshold || deltaY > DragThreshold || deltaY < -DragThreshold
  }

  /** A move of at most 3 pixels on both axes is never a drag. */
  lemma SmallMovesAreClicks(deltaX: int, deltaY: int)
    requires -DragThreshold <= deltaX <= DragThreshold && -DragThreshold <= deltaY <= DragThreshold
    ensures !ExceedsThreshold(deltaX, deltaY)
  {
  }

  /** A frame cache that holds frames as they are, and frame 0 whenever there is an animation. */
  ghost predicate CacheHolds(cache: map<int, string>, frames: seq<string>, animated: bool) {
    && (forall k :: k in cache ==> 0 <= k < |frames| && cache[k] == frames[k])
    && (animated ==> 0 in cache)
    && (!animated ==> cache == map[])
  }

  // ---------------------------------------------------------------------
  // The widget script's state
  // ---------------------------------------------------------------------

  class Session {
    const isGif: bool
    const gifDelays: seq<int>
    const allFramesData: seq<string>
    const totalFrames: nat
    var frameCache: map<int, string>
    var display: string
    var currentFrame: int
    var isPlaying: bool
    var pendingTimers: nat
    var pendingDelay: int
    var fontSize: int
    var controlsVisible: bool
    var closeSent: bool
    var isDragging: bool
    var dragStartX: int
    var dragStartY: int
    var hasMoved: bool
    /** Where the current drag began, and the deltas sent since: ghost bookkeeping. */
    ghost var dragOriginX: int
    ghost var dragOriginY: int
    ghost var sentX: int
    ghost var sentY: int

    /** Frames are animated: `isGif && totalFrames > 0`. */
    predicate Animated()
    {
      isGif && totalFrames > 0
    }

    /** The cache only ever holds frames as they are; frame 0 is cached from the start. */
    ghost predicate CacheValid()
      reads this`frameCache
    {
      CacheHolds(frameCache, allFramesData, Animated())
    }

    /** The current frame is a valid index whenever there are frames. */
    ghost predicate FramesValid()
      reads this`currentFrame, this`frameCache
    {
      && totalFrames == |allFramesData|
      && 0 <= currentFrame
      && (totalFrames > 0 ==> currentFrame < totalFrames)
      && (totalFrames == 0 ==> currentFrame == 0)
      && CacheValid()
    }

    /**
     * At most one callback is ever scheduled, only while playing an animation,
     * and always while playing one until the widget closes.
     */
    ghost predicate TimerValid()
      reads this`pendingTimers, this`isPlaying, this`closeSent, this`pendingDelay, this`currentFrame
    {
      && pendingTimers <= 1
      && (pendingTimers == 1 ==> isPlaying && Animated())
      && (isPlaying && Animated() && !closeSent ==> pendingTimers == 1)
      && (pendingTimers == 1 ==> pendingDelay == FrameDelay(gifDelays, currentFrame))
    }

    /** While dragging, the anchor is the press position plus every delta sent since. */
    ghost predicate DragValid()
      reads this`isDragging, this`dragStartX, this`dragStartY, this`dragOriginX, this`dragOriginY, this`sentX, this`sentY
    {
      isDragging ==> dragStartX == dragOriginX + sentX && dragStartY == dragOriginY + sentY
    }

    ghost predicate Valid()
      reads this
    {
      && FramesValid()
      && TimerValid()
      && MinFontSize <= fontSize <= MaxFontSize
      && DragValid()
    }

    /**
     * The script's start-up: frame 0 is shown and the animation started for a
     * non-empty animation, the static text is shown otherwise; playing starts
     * out equal to `isGif`, the font size at 6, the controls visible.
     */
    constructor (isGif: bool, frames: seq<string>, delays: seq<int>, asciiArt: string)
      ensures Valid()
      ensures this.isGif == isGif && allFramesData == frames && gifDelays == delays && totalFrames == |frames|
      ensures currentFrame == 0 && isPlaying == isGif && fontSize == InitialFontSize
      ensures controlsVisible && !closeSent && !isDragging && !hasMoved
      ensures pendingTimers == (if isGif && |frames| > 0 then 1 else 0)
      ensures display == if isGif && |frames| > 0 then frames[0] else asciiArt
    {
      this.isGif := isGif;
      gifDelays := delays;
      allFramesData := frames;
      totalFrames := |frames|;
      frameCache := if isGif && |frames| > 0 then map[0 := frames[0]] else map[];
      currentFrame := 0;
      isPlaying := isGif;
      pendingTimers := 0;
      pendingDelay := DefaultDelay;
      fontSize := InitialFontSize;
      controlsVisible := true;
      closeSent := false;
      isDragging, hasMoved := false, false;
      dragStartX, dragStartY := 0, 0;
      dragOriginX, dragOriginY, sentX, sentY := 0, 0, 0, 0;
      new;
      assert FramesValid();
      if isGif && |frames| > 0 {
        display := GetFrame(0);
        StartAnimation();
      } else {
        display := asciiArt;
      }
    }

    /** `getFrame(index)`, with its cache: the cache never changes what is returned. */
    method GetFrame(index: int) returns (text: string)
      requires FramesValid()
      modifies this`frameCache
      ensures FramesValid()
      ensures text == FrameText(isGif, allFramesData, index)
    {
      if !isGif {
        return "";
      }
      if index in frameCache && frameCache[index] != "" {
        return frameCache[index];
      }
      if 0 <= index < |allFramesData| && allFramesData[index] != "" {
        frameCache := frameCache[index := allFramesData[index]];
        return frameCache[index];
      }
      text := if 0 in frameCache then frameCache[0] else "";
    }

    /** `startAnimation`: schedules the next frame after the current frame's delay. */
    method StartAnimation()
      requires FramesValid() && pendingTimers == 0
      modifies this`pendingTimers, this`pendingDelay
      ensures pendingTimers == if Animated() then 1 else 0
      ensures Animated() ==> pendingDelay == FrameDelay(gifDelays, currentFrame)
      ensures !Animated() ==> pendingDelay == old(pendingDelay)
    {
      if !isGif || totalFrames == 0 {
        return;
      }
      var delay := FrameDelay(gifDelays, currentFrame);
      pendingTimers := pendingTimers + 1;
      pendingDelay := delay;
    }

    /** `clearTimeout(animationTimer)`: the scheduled callback, if any, is cancelled. */
    method ClearTimer()
      requires pendingTimers <= 1
      modifies this`pendingTimers
      ensures pendingTimers == 0
    {
      if pendingTimers > 0 {
        pendingTimers := pendingTimers - 1;
      }
    }

    /**
     * The timer fires (`showNextFrame`): when playing, the next frame is shown
     * and the timer re-armed with that frame's delay; when not, nothing happens.
     */
    method ShowNextFrame()
      requires Valid() && pendingTimers == 1
      modifies this`pendingTimers, this`pendingDelay, this`currentFrame, this`display, this`frameCache
      ensures Valid()
      ensures pendingTimers == 1
      ensures currentFrame == NextIndex(old(currentFrame), totalFrames)
      ensures display == FrameText(isGif, allFramesData, currentFrame)
      ensures pendingDelay == FrameDelay(gifDelays, currentFrame)
    {
      pendingTimers := pendingTimers - 1;
      if !isPlaying {
        return;
      }
      currentFrame := (currentFrame + 1) % totalFrames;
      display := GetFrame(currentFrame);
      var delay := FrameDelay(gifDelays, currentFrame);
      pendingTimers := pendingTimers + 1;
      pendingDelay := delay;
    }

    /** `togglePlayPause`: flips playing; resuming re-arms the timer, pausing cancels it. */
    method TogglePlayPause()
      requires Valid()
      modifies this`isPlaying, this`pendingTimers, this`pendingDelay
      ensures Valid()
      ensures isPlaying == !old(isPlaying)
      ensures !isPlaying ==> pendingTimers == 0
      ensures isPlaying ==> pendingTimers == (if Animated() then 1 else 0)
      ensures currentFrame == old(currentFrame)
    {
      isPlaying := !isPlaying;
      if isPlaying {
        StartAnimation();
      } else {
        ClearTimer();
      }
    }

    /**
     * `prevFrame`: nothing for a static or empty animation; otherwise the
     * pending callback is cancelled, the previous frame shown, and the timer
     * re-armed only if playing. Playing itself never changes.
     */
    method PrevFrame()
      requires Valid()
      modifies this`pendingTimers, this`pendingDelay, this`currentFrame, this`display, this`frameCache
      ensures Valid()
      ensures isPlaying == old(isPlaying)
      ensures !Animated() ==> currentFrame == old(currentFrame) && pendingTimers == old(pendingTimers) && display == old(display)
                              && pendingDelay == old(pendingDelay) && frameCache == old(frameCache)
      ensures Animated() ==> currentFrame == PrevIndex(old(currentFrame), totalFrames)
      ensures Animated() ==> display == FrameText(isGif, allFramesData, currentFrame)
      ensures Animated() ==> pendingTimers == (if isPlaying then 1 else 0)
    {
      if !isGif || totalFrames == 0 {
        return;
      }
      ClearTimer();
      currentFrame := (currentFrame - 1 + totalFrames) % totalFrames;
      display := GetFrame(currentFrame);
      if isPlaying {
        StartAnimation();
      }
    }

    /** `nextFrame`: as PrevFrame, stepping forward. */
    method NextFrame()
      requires Valid()
      modifies this`pendingTimers, this`pendingDelay, this`currentFrame, this`display, this`frameCache
      ensures Valid()
      ensures isPlaying == old(isPlaying)
      ensures !Animated() ==> currentFrame == old(currentFrame) && pendingTimers == old(pendingTimers) && display == old(display)
                              && pendingDelay == old(pendingDelay) && frameCache == old(frameCache)
      ensures Animated() ==> currentFrame == NextIndex(old(currentFrame), totalFrames)
      ensures Animated() ==> display == FrameText(isGif, allFramesData, currentFrame)
      ensures Animated() ==> pendingTimers == (if isPlaying then 1 else 0)
    {
      if !isGif || totalFrames == 0 {
        return;
      }
      ClearTimer();
      currentFrame := (currentFrame + 1) % totalFrames;
      display := GetFrame(currentFrame);
      if isPlaying {
        StartAnimation();
      }
    }

    /** `decreaseSize`: one pixel smaller, but never below 2. */
    method DecreaseSize()
      requires Valid()
      modifies this`fontSize
      ensures Valid()
      ensures fontSize == if old(fontSize) > MinFontSize then old(fontSize) - 1 else old(fontSize)
    {
      if fontSize > MinFontSize {
        fontSize := fontSize - 1;
      }
    }

    /** `increaseSize`: one pixel larger, but never above 20. */
    method IncreaseSize()
      requires Valid()
      modifies this`fontSize
      ensures Valid()
      ensures fontSize == if old(fontSize) < MaxFontSize then old(fontSize) + 1 else old(fontSize)
    {
      if fontSize < MaxFontSize {
        fontSize := fontSize + 1;
      }
    }

    /** `toggleControls`. */
    method ToggleControls()
      requires Valid()
      modifies this`controlsVisible
      ensures Valid() && controlsVisible == !old(controlsVisible)
    {
      controlsVisible := !controlsVisible;
    }

    /** `showControlsFromMenu`: the controls are shown (and the menu hidden, which is not modelled). */
    method ShowControlsFromMenu()
      requires Valid()
      modifies this`controlsVisible
      ensures Valid() && controlsVisible
    {
      controlsVisible := true;
    }

    /** `closeWidget`: any scheduled callback is cancelled, then the window is asked to close. */
    method CloseWidget()
      requires Valid()
      modifies this`pendingTimers, this`closeSent
      ensures Valid() && pendingTimers == 0 && closeSent
    {
      ClearTimer();
      closeSent := true;
    }

    /** `mousedown`: a left press starts a possible drag anchored at the pointer. */
    method MouseDown(button: int, screenX: int, screenY: int)
      requires Valid()
      modifies this`isDragging, this`hasMoved, this`dragStartX, this`dragStartY,
        this`dragOriginX, this`dragOriginY, this`sentX, this`sentY
      ensures Valid()
      ensures button == 0 ==> isDragging && !hasMoved && dragStartX == screenX && dragStartY == screenY
      ensures button != 0 ==>
        isDragging == old(isDragging) && hasMoved == old(hasMoved)
        && dragStartX == old(dragStartX) && dragStartY == old(dragStartY)
    {
      if button == 0 {
        isDragging := true;
        hasMoved := false;
        dragStartX := screenX;
        dragStartY := screenY;
        dragOriginX, dragOriginY, sentX, sentY := screenX, screenY, 0, 0;
      }
    }

    /**
     * `mousemove`: while dragging, a pointer more than 3 pixels from the anchor
     * on either axis sends the delta to the main process and moves the anchor
     * to the pointer; a smaller movement sends nothing. The anchor is always the
     * press position plus every delta sent since.
     */
    method MouseMove(button: int, screenX: int, screenY: int) returns (move: Option<(int, int)>)
      requires Valid()
      modifies this`hasMoved, this`dragStartX, this`dragStartY, this`sentX, this`sentY
      ensures Valid()
      ensures move.Some? <==>
        isDragging && button == 0 && ExceedsThreshold(screenX - old(dragStartX), screenY - old(dragStartY))
      ensures move.Some? ==>
        move.value == (screenX - old(dragStartX), screenY - old(dragStartY))
        && hasMoved && dragStartX == screenX && dragStartY == screenY
      ensures move.None? ==> hasMoved == old(hasMoved) && dragStartX == old(dragStartX) && dragStartY == old(dragStartY)
    {
      move := None;
      if isDragging && button == 0 {
        var deltaX := screenX - dragStartX;
        var deltaY := screenY - dragStartY;
        if ExceedsThreshold(deltaX, deltaY) {
          hasMoved := true;
          move := Some((deltaX, deltaY));
          sentX, sentY := sentX + deltaX, sentY + deltaY;
          dragStartX := screenX;
          dragStartY := screenY;
        }
      }
    }

    /**
     * `mouseup`: a left release ends the drag. When nothing was sent it was a
     * click: an open context menu is closed (`hideMenu`), or else hidden
     * controls are shown.
     */
    method MouseUp(button: int, menuVisible: bool) returns (hideMenu: bool)
      requires Valid()
      modifies this`isDragging, this`hasMoved, this`controlsVisible
      ensures Valid()
      ensures hideMenu <==> button == 0 && !old(hasMoved) && menuVisible
      ensures button == 0 ==> !isDragging && !hasMoved
      ensures controlsVisible == (old(controlsVisible) || (button == 0 && !old(hasMoved) && !menuVisible))
      ensures button != 0 ==> isDragging == old(isDragging) && hasMoved == old(hasMoved)
    {
      hideMenu := false;
      if button == 0 {
        isDragging := false;
        if !hasMoved {
          if menuVisible {
            hideMenu := true;
            return;
          }
          if !controlsVisible {
            controlsVisible := true;
          }
        }
        hasMoved := false;
      }
    }
  }
}
