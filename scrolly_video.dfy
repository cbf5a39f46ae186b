/**
  The playback session of `ScrollyVideo`, the non-DOM part of the class: the time it shows,
  the time it is heading to, the decoded frames and the canvas they are painted on, the
  media element's pause/rate/position, the chains of animation-frame callbacks that move
  `currentTime` towards `targetTime`, and the scroll-echo bookkeeping.

  The browser's animation-frame queue is modelled explicitly: `scheduled` maps every pending
  request handle to the state of the `step` closure it will run, `RequestFrame` and
  `CancelFrame` are `requestAnimationFrame` and `cancelAnimationFrame`, and the browser
  firing a handle is a call of `Step` with that handle.
*/
module Scrolly {
  import opened Wrappers
  import opened Timing
  import opened ScrollGeometry

  /** A decoded video frame; only its size matters to the session. */
  datatype Frame = Frame(width: nat, height: nat)

  /** The options `setTargetTimePercent` passes on to `transitionToTargetTime`: an absent
      `transitionSpeed` falls back to the instance's, an absent easing is `null`. */
  datatype TransitionOptions = TransitionOptions(
    jump: bool,
    transitionSpeed: Option<real>,
    easing: Option<real -> real>)

  /** The closure state a new chain starts with: the options (an absent speed falls back
      to the instance's), direction and distance from the current to the target time, and
      no anchor until its first tick. */
  function NewChain(options: TransitionOptions, defaultSpeed: real, currentTime: real, targetTime: real): (t: Tick)
    ensures t.isForward <==> targetTime > currentTime
    ensures t.absDiff == Abs(targetTime - currentTime) && t.anchor == None
    ensures t.speed == (if options.transitionSpeed.Some? then options.transitionSpeed.value else defaultSpeed)
  {
    var diff := targetTime - currentTime;
    Tick(
      options.jump,
      if options.transitionSpeed.Some? then options.transitionSpeed.value else defaultSpeed,
      options.easing,
      diff > 0.0,
      Abs(diff),
      None)
  }

  class ScrollyVideo {
    const transitionSpeed: real
    const frameThreshold: real
    const trackScroll: bool
    const isSafari: bool
    /** The media element's duration, known once its metadata has loaded. */
    const videoDuration: real

    /** The media element: paused or playing, its rate and its own position. */
    var paused: bool
    var playbackRate: real
    var mediaTime: real

    var frames: seq<Frame>
    var frameRate: real
    /** Whether decoding succeeded and a canvas replaced the media element. */
    var hasCanvas: bool
    var canvasWidth: nat
    var canvasHeight: nat
    /** The frame last drawn onto the canvas. */
    var painted: Option<nat>

    var currentTime: real
    var targetTime: real

    /** The handle most recently returned by `requestAnimationFrame`, or none. */
    var transitioningRaf: Option<nat>
    /** The browser's pending animation-frame callbacks, by handle. */
    var scheduled: map<nat, Tick>
    var nextHandle: nat

    /** The offset of a scroll started by `setScrollPercent` that has not yet arrived. */
    var targetScrollPosition: Option<real>

    /** Handles are positive (so a live handle is truthy) and every handle in use was
        issued before `nextHandle`. */
    predicate Valid()
      reads this
    {
      && 0 < nextHandle
      && (forall h :: h in scheduled ==> 0 < h < nextHandle)
      && (transitioningRaf.Some? ==> 0 < transitioningRaf.value < nextHandle)
    }

    /** At most one chain is pending, and it is the one `transitioningRaf` names. */
    predicate SingleFlight()
      reads this
    {
      && Valid()
      && (transitioningRaf.None? ==> scheduled == map[])
      && (transitioningRaf.Some? ==> scheduled.Keys <= {transitioningRaf.value})
    }

    /** The values one tick reads. */
    function Snapshot(): Session
      reads this
    {
      Session(currentTime, targetTime, frameThreshold, videoDuration, hasCanvas, isSafari, frameRate)
    }

    /** The duration a percent refers to (scrolly.js line 260). */
    function Duration(): real
      reads this
    {
      PlaybackDuration(|frames|, frameRate, videoDuration)
    }

    /** A session at time 0 with no frames, no canvas, a paused media element and no
        pending callbacks. */
    constructor(transitionSpeed: real, frameThreshold: real, trackScroll: bool, isSafari: bool, videoDuration: real)
      ensures this.transitionSpeed == transitionSpeed && this.frameThreshold == frameThreshold
      ensures this.trackScroll == trackScroll && this.isSafari == isSafari && this.videoDuration == videoDuration
      ensures currentTime == 0.0 && targetTime == 0.0 && mediaTime == 0.0
      ensures frames == [] && frameRate == 0.0 && !hasCanvas && painted == None
      ensures paused && playbackRate == 1.0
      ensures transitioningRaf == None && scheduled == map[] && nextHandle == 1 && targetScrollPosition == None
      ensures SingleFlight()
    {
      this.transitionSpeed := transitionSpeed;
      this.frameThreshold := frameThreshold;
      this.trackScroll := trackScroll;
      this.isSafari := isSafari;
      this.videoDuration := videoDuration;
      paused := true;
      playbackRate := 1.0;
      mediaTime := 0.0;
      frames := [];
      frameRate := 0.0;
      hasCanvas := false;
      canvasWidth := 0;
      canvasHeight := 0;
      painted := None;
      currentTime := 0.0;
      targetTime := 0.0;
      transitioningRaf := None;
      scheduled := map[];
      nextHandle := 1;
      targetScrollPosition := None;
    }

    /** `requestAnimationFrame`: a fresh positive handle for the callback `tick`. */
    method RequestFrame(tick: Tick) returns (handle: nat)
      requires Valid()
      modifies this`scheduled, this`nextHandle
      ensures handle == old(nextHandle) && handle !in old(scheduled)
      ensures scheduled == old(scheduled)[handle := tick] && nextHandle == handle + 1
      ensures Valid()
    {
      handle := nextHandle;
      scheduled := scheduled[handle := tick];
      nextHandle := nextHandle + 1;
    }

    /** `cancelAnimationFrame`: the callback of `handle`, if still pending, never runs. */
    method CancelFrame(handle: nat)
      requires Valid()
      modifies this`scheduled
      ensures scheduled == old(scheduled) - {handle}
      ensures Valid()
    {
      scheduled := scheduled - {handle};
    }

    /** The end of a successful decode (scrolly.js lines 146-162): with no frames nothing
        changes; otherwise the frame rate becomes frames per second of media, a canvas
        replaces the media element and the current frame is painted on it. */
    method AttachFrames(decoded: seq<Frame>)
      requires frames == [] && (decoded != [] ==> videoDuration > 0.0)
      modifies this`frames, this`frameRate, this`hasCanvas, this`canvasWidth, this`canvasHeight, this`painted
      ensures frames == decoded
      ensures decoded == [] ==> unchanged(this)
      ensures decoded != [] ==>
        && frameRate == |decoded| as real / videoDuration
        && hasCanvas
        && Duration() == videoDuration
      ensures decoded != [] && 0 <= FrameIndex(currentTime, frameRate) < |decoded| ==>
        var i := FrameIndex(currentTime, frameRate);
        && painted == Some(i)
        && canvasWidth == decoded[i].width && canvasHeight == decoded[i].height
      ensures decoded != [] && !(0 <= FrameIndex(currentTime, frameRate) < |decoded|) ==>
        unchanged(this`canvasWidth, this`canvasHeight, this`painted)
    {
      frames := frames + decoded;
      if |frames| != 0 {
        var rate := |decoded| as real / videoDuration;
        DecodedDurationAgrees(|decoded|, videoDuration);
        frameRate := rate;
        hasCanvas := true;
        PaintCanvasFrame(FrameIndex(currentTime, frameRate));
      }
    }

    /** The outcome of `paintCanvasFrame(frameIndex)`: with a canvas and an index naming a
        frame, that frame is drawn and the canvas takes its size; otherwise the canvas and
        the drawn frame are as they were. */
    twostate predicate PaintedOrKept(frameIndex: int)
      reads this
    {
      if hasCanvas && 0 <= frameIndex < |frames| then
        && painted == Some(frameIndex)
        && canvasWidth == frames[frameIndex].width
        && canvasHeight == frames[frameIndex].height
      else
        && canvasWidth == old(canvasWidth)
        && canvasHeight == old(canvasHeight)
        && painted == old(painted)
    }

    /** `paintCanvasFrame`: draws frame `frameIndex` and sizes the canvas to it, provided a
        canvas exists and the index names a decoded frame; otherwise does nothing. */
    method PaintCanvasFrame(frameIndex: int)
      modifies this`canvasWidth, this`canvasHeight, this`painted
      ensures hasCanvas && 0 <= frameIndex < |frames| ==>
        && painted == Some(frameIndex)
        && canvasWidth == frames[frameIndex].width
        && canvasHeight == frames[frameIndex].height
      ensures !(hasCanvas && 0 <= frameIndex < |frames|) ==>
        unchanged(this`canvasWidth, this`canvasHeight, this`painted)
    {
      if !hasCanvas || !(0 <= frameIndex < |frames|) {
        return;
      }
      var frame := frames[frameIndex];
      canvasWidth := frame.width;
      canvasHeight := frame.height;
      painted := Some(frameIndex);
    }

    /** `transitionToTargetTime` as written (scrolly.js lines 183-257): it requests the
        first tick of a new chain and records its handle, leaving any chain already
        running pending alongside it. */
    method TransitionToTargetTimeAsWritten(options: TransitionOptions)
      requires Valid()
      modifies this
      ensures transitioningRaf == Some(old(nextHandle))
      ensures scheduled == old(scheduled)[old(nextHandle) := NewChain(options, transitionSpeed, currentTime, targetTime)]
      ensures nextHandle == old(nextHandle) + 1 && Valid()
      ensures unchanged(this`currentTime, this`targetTime, this`paused, this`mediaTime, this`playbackRate)
      ensures unchanged(this`frames, this`frameRate, this`hasCanvas, this`targetScrollPosition)
      ensures unchanged(this`canvasWidth, this`canvasHeight, this`painted)
    {
      var handle := RequestFrame(NewChain(options, transitionSpeed, currentTime, targetTime));
      transitioningRaf := Some(handle);
    }

    /** `transitionToTargetTime` with the running chain cancelled first: the new chain is
        the only one pending. */
    method TransitionToTargetTime(options: TransitionOptions)
      requires SingleFlight()
      modifies this
      ensures transitioningRaf == Some(old(nextHandle))
      ensures scheduled == map[old(nextHandle) := NewChain(options, transitionSpeed, currentTime, targetTime)]
      ensures nextHandle == old(nextHandle) + 1 && SingleFlight()
      ensures unchanged(this`currentTime, this`targetTime, this`paused, this`mediaTime, this`playbackRate)
      ensures unchanged(this`frames, this`frameRate, this`hasCanvas, this`targetScrollPosition)
      ensures unchanged(this`canvasWidth, this`canvasHeight, this`painted)
    {
      if transitioningRaf.Some? {
        CancelFrame(transitioningRaf.value);
      }
      var handle := RequestFrame(NewChain(options, transitionSpeed, currentTime, targetTime));
      transitioningRaf := Some(handle);
    }

    /** The part of `setTargetTimePercent` before the transition (scrolly.js lines
        260-264): the target becomes the clamped percent of the duration, and a transition
        is wanted unless this is not a jump and the target is already within the
        threshold. */
    method Retarget(percent: real, options: TransitionOptions) returns (start: bool)
      modifies this`targetTime
      ensures targetTime == TargetTime(percent, old(Duration()))
      ensures start <==> options.jump || Abs(currentTime - targetTime) >= frameThreshold
    {
      targetTime := TargetTime(percent, Duration());
      start := options.jump || Abs(currentTime - targetTime) >= frameThreshold;
    }

    /** `setTargetTimePercent` (scrolly.js lines 259-269), starting its transition with the
        running chain cancelled. The `play()` on line 266 is only reached when the media
        element is already playing, so it changes nothing here. */
    method SetTargetTimePercent(percent: real, options: TransitionOptions)
      requires SingleFlight()
      modifies this
      ensures targetTime == TargetTime(percent, old(Duration()))
      ensures 0.0 <= Duration() ==> 0.0 <= targetTime <= Duration()
      ensures var start := options.jump || Abs(currentTime - targetTime) >= frameThreshold;
        && (start ==> && transitioningRaf == Some(old(nextHandle)) && nextHandle == old(nextHandle) + 1
                      && scheduled == map[old(nextHandle) := NewChain(options, transitionSpeed, currentTime, targetTime)])
        && (!start ==> unchanged(this`transitioningRaf, this`scheduled, this`nextHandle))
      ensures SingleFlight()
      ensures unchanged(this`currentTime, this`paused, this`mediaTime, this`playbackRate, this`frames)
      ensures unchanged(this`frameRate, this`hasCanvas, this`targetScrollPosition, this`painted)
      ensures unchanged(this`canvasWidth, this`canvasHeight)
    {
      var start := Retarget(percent, options);
      if start {
        TransitionToTargetTime(options);
      }
    }

    /** `setTargetTimePercent` as written, whose transition leaves the running chain
        pending. */
    method SetTargetTimePercentAsWritten(percent: real, options: TransitionOptions)
      requires Valid()
      modifies this
      ensures targetTime == TargetTime(percent, old(Duration()))
      ensures var start := options.jump || Abs(currentTime - targetTime) >= frameThreshold;
        && (start ==> && transitioningRaf == Some(old(nextHandle)) && nextHandle == old(nextHandle) + 1
                      && scheduled == old(scheduled)[old(nextHandle) := NewChain(options, transitionSpeed, currentTime, targetTime)])
        && (!start ==> unchanged(this`transitioningRaf, this`scheduled, this`nextHandle))
      ensures Valid()
      ensures unchanged(this`currentTime, this`paused, this`mediaTime, this`playbackRate, this`frames)
      ensures unchanged(this`frameRate, this`hasCanvas, this`targetScrollPosition, this`painted)
      ensures unchanged(this`canvasWidth, this`canvasHeight)
    {
      var start := Retarget(percent, options);
      if start {
        TransitionToTargetTimeAsWritten(options);
      }
    }

    /** One `step` (scrolly.js lines 189-249): the browser runs the callback of `handle`
        at `timestamp`; `mediaPosition` is the media element's own position at that
        moment. The first tick of a chain fixes its anchor. A finished chain pauses the
        media, cancels the handle in `transitioningRaf` and clears it, leaving the times
        alone; otherwise the tick applies `TickOutcome` -- paints, seeks or plays -- and
        requests the chain's next tick. */
    method Step(handle: nat, timestamp: real, mediaPosition: real)
      requires Valid() && handle in scheduled
      modifies this
      ensures Valid()
      ensures var t := old(scheduled[handle]);
        var a := if t.anchor.Some? then t.anchor.value else Anchor(old(currentTime), timestamp);
        var o := TickOutcome(t, a, timestamp, old(Snapshot()), mediaPosition);
        match o
        case Stop =>
          && paused
          && unchanged(this`currentTime, this`targetTime, this`mediaTime, this`playbackRate)
          && unchanged(this`painted, this`canvasWidth, this`canvasHeight)
          && transitioningRaf == None && nextHandle == old(nextHandle)
          && scheduled == old(scheduled) - {handle} - (if old(transitioningRaf).Some? then {old(transitioningRaf).value} else {})
        case Advance(target, current, effect) =>
          && targetTime == target && currentTime == current
          && transitioningRaf == Some(old(nextHandle)) && nextHandle == old(nextHandle) + 1
          && scheduled == (old(scheduled) - {handle})[old(nextHandle) := t.(anchor := Some(a))]
          && (effect.Paint? ==> && unchanged(this`paused, this`mediaTime, this`playbackRate)
                                && PaintedOrKept(effect.frameIndex))
          && (effect.Seek? ==> && paused && mediaTime == effect.position
                               && unchanged(this`playbackRate, this`painted, this`canvasWidth, this`canvasHeight))
          && (effect.Play? ==> && !paused && playbackRate == effect.rate && mediaTime == mediaPosition
                               && unchanged(this`painted, this`canvasWidth, this`canvasHeight))
      ensures old(SingleFlight()) ==> SingleFlight()
      ensures unchanged(this`frames, this`frameRate, this`hasCanvas, this`targetScrollPosition)
    {
      var t := scheduled[handle];
      scheduled := scheduled - {handle};
      var a := if t.anchor.Some? then t.anchor.value else Anchor(currentTime, timestamp);
      ApplyOutcome(TickOutcome(t, a, timestamp, Snapshot(), mediaPosition), t.(anchor := Some(a)), mediaPosition);
    }

    /** The rest of a tick once its callback has left the queue: a stopped chain ends, an
        advancing one takes its new times, shows its effect and requests its next tick,
        whose closure is `next`. */
    method ApplyOutcome(o: Outcome, next: Tick, mediaPosition: real)
      requires Valid()
      modifies this
      ensures Valid()
      ensures match o
        case Stop =>
          && paused
          && unchanged(this`currentTime, this`targetTime, this`mediaTime, this`playbackRate)
          && unchanged(this`painted, this`canvasWidth, this`canvasHeight)
          && transitioningRaf == None && nextHandle == old(nextHandle)
          && scheduled == old(scheduled) - (if old(transitioningRaf).Some? then {old(transitioningRaf).value} else {})
        case Advance(target, current, effect) =>
          && targetTime == target && currentTime == current
          && transitioningRaf == Some(old(nextHandle)) && nextHandle == old(nextHandle) + 1
          && scheduled == old(scheduled)[old(nextHandle) := next]
          && (effect.Paint? ==> && unchanged(this`paused, this`mediaTime, this`playbackRate)
                                && PaintedOrKept(effect.frameIndex))
          && (effect.Seek? ==> && paused && mediaTime == effect.position
                               && unchanged(this`playbackRate, this`painted, this`canvasWidth, this`canvasHeight))
          && (effect.Play? ==> && !paused && playbackRate == effect.rate && mediaTime == mediaPosition
                               && unchanged(this`painted, this`canvasWidth, this`canvasHeight))
      ensures old(scheduled) == map[] ==> SingleFlight()
      ensures unchanged(this`frames, this`frameRate, this`hasCanvas, this`targetScrollPosition)
    {
      match o
      case Stop =>
        EndChain();
      case Advance(target, current, effect) =>
        targetTime := target;
        currentTime := current;
        ApplyEffect(effect, mediaPosition);
        ContinueChain(next);
    }

    /** A finished chain: pause the media, and cancel and clear the recorded handle if
        there is one (scrolly.js lines 193-197). */
    method EndChain()
      requires Valid()
      modifies this`paused, this`scheduled, this`transitioningRaf
      ensures paused && transitioningRaf == None && Valid()
      ensures scheduled == old(scheduled) - (if old(transitioningRaf).Some? then {old(transitioningRaf).value} else {})
    {
      paused := true;
      if transitioningRaf.Some? {
        CancelFrame(transitioningRaf.value);
        transitioningRaf := None;
      }
    }

    /** What a tick does to the picture: paint the frame on the canvas, or pause and seek
        the media element, or set its rate and let it play (scrolly.js lines 223-243). */
    method ApplyEffect(effect: Effect, mediaPosition: real)
      modifies this`paused, this`mediaTime, this`playbackRate, this`canvasWidth, this`canvasHeight, this`painted
      ensures effect.Paint? ==>
        && unchanged(this`paused, this`mediaTime, this`playbackRate)
        && PaintedOrKept(effect.frameIndex)
      ensures effect.Seek? ==>
        && paused && mediaTime == effect.position
        && unchanged(this`playbackRate, this`painted, this`canvasWidth, this`canvasHeight)
      ensures effect.Play? ==>
        && !paused && playbackRate == effect.rate && mediaTime == mediaPosition
        && unchanged(this`painted, this`canvasWidth, this`canvasHeight)
    {
      match effect {
        case Paint(index) =>
          PaintCanvasFrame(index);
        case Seek(position) =>
          paused := true;
          mediaTime := position;
        case Play(rate) =>
          playbackRate := rate;
          paused := false;
          mediaTime := mediaPosition;
      }
    }

    /** The chain's next tick is requested and its handle recorded (scrolly.js line 248). */
    method ContinueChain(tick: Tick)
      requires Valid()
      modifies this`scheduled, this`nextHandle, this`transitioningRaf
      ensures transitioningRaf == Some(old(nextHandle)) && nextHandle == old(nextHandle) + 1
      ensures scheduled == old(scheduled)[old(nextHandle) := tick] && Valid()
    {
      var next := RequestFrame(tick);
      transitioningRaf := Some(next);
    }

    /** The debounced scroll handler's body (scrolly.js lines 91-99), given the parent's
        rectangle, the viewport height and the page offset. With no scroll of ours in
        flight, the fraction scrolled through becomes the jump target and is reported to
        `onChange` (the result); while one is in flight, nothing is retargeted or
        reported, and the record is dropped once the page is within 1px of it. */
    method OnScroll(rectTop: real, rectHeight: real, innerHeight: real, pageYOffset: real)
      returns (notified: Option<real>)
      requires rectHeight != innerHeight
      requires SingleFlight()
      modifies this
      ensures SingleFlight()
      ensures old(targetScrollPosition).None? ==>
        && notified == Some(ScrollFraction(rectTop, rectHeight, innerHeight))
        && targetTime == TargetTime(notified.value, old(Duration()))
        && targetScrollPosition == None
        && transitioningRaf == Some(old(nextHandle)) && nextHandle == old(nextHandle) + 1
        && scheduled == map[old(nextHandle) := NewChain(TransitionOptions(true, None, None), transitionSpeed, currentTime, targetTime)]
      ensures old(targetScrollPosition).Some? ==>
        && notified == None
        && unchanged(this`targetTime, this`transitioningRaf, this`scheduled, this`nextHandle)
        && (targetScrollPosition == None <==> Abs(pageYOffset - old(targetScrollPosition).value) < 1.0)
        && (targetScrollPosition != None ==> targetScrollPosition == old(targetScrollPosition))
      ensures unchanged(this`frames, this`frameRate, this`hasCanvas, this`currentTime)
      ensures unchanged(this`paused, this`mediaTime, this`playbackRate)
      ensures unchanged(this`painted, this`canvasWidth, this`canvasHeight)
    {
      var scrollPercent := ScrollFraction(rectTop, rectHeight, innerHeight);
      if targetScrollPosition == None {
        SetTargetTimePercent(scrollPercent, TransitionOptions(true, None, None));
        notified := Some(scrollPercent);
      } else if Abs(pageYOffset - targetScrollPosition.value) < 1.0 {
        targetScrollPosition := None;
        notified := None;
      } else {
        notified := None;
      }
    }

    /** `setScrollPercent` (scrolly.js lines 271-284): without scroll tracking nothing
        happens; otherwise, when the page is already within 1px of the offset for
        `percent` the in-flight record is dropped, and when it is not the page is
        scrolled there (the result) and the offset recorded. */
    method SetScrollPercent(percent: real, rectTop: real, rectHeight: real, innerHeight: real, pageYOffset: real)
      returns (scrollTo: Option<real>)
      modifies this`targetScrollPosition
      ensures !trackScroll ==> scrollTo == None && unchanged(this)
      ensures trackScroll ==>
        var position := ScrollTarget(percent, rectTop, rectHeight, innerHeight, pageYOffset);
        if Abs(pageYOffset - position) < 1.0 then scrollTo == None && targetScrollPosition == None
        else scrollTo == Some(position) && targetScrollPosition == Some(position)
    {
      if !trackScroll {
        return None;
      }
      var position := ScrollTarget(percent, rectTop, rectHeight, innerHeight, pageYOffset);
      if Abs(pageYOffset - position) < 1.0 {
        targetScrollPosition := None;
        scrollTo := None;
      } else {
        scrollTo := Some(position);
        targetScrollPosition := Some(position);
      }
    }
  }

  /** Two jumps in a row with `transitionToTargetTime` as written. The first chain lands on
      8s and requests its next tick; the second jump (to 2s) starts a second chain beside
      it; on its next tick the first chain, which was heading forward, finds itself past
      the new target and stops, cancelling the handle in `transitioningRaf` -- the second
      chain's. Nothing is left pending and the picture stays at 8s instead of 2s. */
  method StaleChainStrandsTarget() returns (v: ScrollyVideo)
    ensures v.scheduled == map[] && v.transitioningRaf == None
    ensures v.currentTime == 8.0 && v.targetTime == 2.0
  {
    var jump := TransitionOptions(true, None, None);
    v := new ScrollyVideo(8.0, 0.1, true, false, 10.0);
    v.SetTargetTimePercentAsWritten(0.8, jump);
    assert v.scheduled.Keys == {1};
    v.Step(1, 0.0, 0.0);
    assert v.currentTime == 8.0 && v.scheduled.Keys == {2};
    v.SetTargetTimePercentAsWritten(0.2, jump);
    assert v.targetTime == 2.0 && v.transitioningRaf == Some(3) && v.scheduled.Keys == {2, 3};
    v.Step(2, 16.0, 8.0);
  }

  /** The same two jumps with the running chain cancelled on each transition: the second
      chain is the only one pending, reaches 2s, and stops there. */
  method LatestChainReachesTarget() returns (v: ScrollyVideo)
    ensures v.scheduled == map[] && v.transitioningRaf == None
    ensures v.currentTime == 2.0 && v.targetTime == 2.0
  {
    var jump := TransitionOptions(true, None, None);
    v := new ScrollyVideo(8.0, 0.1, true, false, 10.0);
    v.SetTargetTimePercent(0.8, jump);
    v.Step(1, 0.0, 0.0);
    assert v.currentTime == 8.0;
    v.SetTargetTimePercent(0.2, jump);
    assert v.targetTime == 2.0 && v.scheduled.Keys == {3};
    v.Step(3, 16.0, 8.0);
    assert v.currentTime == 2.0 && v.scheduled.Keys == {4};
    v.Step(4, 32.0, 2.0);
  }
}
