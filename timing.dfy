/**
  The arithmetic of the time transition engine of `ScrollyVideo`: the playback duration,
  the clamped target time, the step sizes of the canvas and native paths, the playback
  rate of the native forward path, and one animation tick as a function of the session's
  values (`TickOutcome`). The class in module Scrolly performs these rules on its fields.

  Times are exact reals: the NaN and Infinity guards of the source and its IEEE rounding
  are not part of this model.
*/
module Timing {
  import opened Wrappers

  lemma MulPositive(x: real, y: real)
    requires 0.0 < x && 0.0 < y
    ensures 0.0 < x * y
  {
  }

  /** A fraction of a nonnegative amount lies between 0 and the amount. */
  lemma ScaleWithin(c: real, d: real)
    requires 0.0 <= c <= 1.0
    ensures 0.0 <= d ==> 0.0 <= c * d <= d
  {
    if 0.0 < c && 0.0 < d {
      MulPositive(c, d);
      if c < 1.0 {
        MulPositive(1.0 - c, d);
        assert (1.0 - c) * d == d - c * d;
      }
    }
  }

  function Abs(x: real): real {
    if x < 0.0 then -x else x
  }

  function Min(x: real, y: real): real {
    if x <= y then x else y
  }

  function Max(x: real, y: real): real {
    if x >= y then x else y
  }

  // ---------------------------------------------------------------------------------------
  // setTargetTimePercent

  /** `Math.max(Math.min(percent, 1), 0)`. */
  function Clamp01(percent: real): (r: real)
    ensures 0.0 <= r <= 1.0
    ensures 0.0 <= percent <= 1.0 ==> r == percent
    ensures percent > 1.0 ==> r == 1.0
    ensures percent < 0.0 ==> r == 0.0
  {
    Max(Min(percent, 1.0), 0.0)
  }

  /** The duration a percent is taken of: frame count over frame rate once frames are
      decoded (both nonzero), the media element's duration otherwise. */
  function PlaybackDuration(frameCount: nat, frameRate: real, mediaDuration: real): (d: real)
    ensures frameCount != 0 && frameRate != 0.0 ==> d * frameRate == frameCount as real
    ensures frameCount == 0 || frameRate == 0.0 ==> d == mediaDuration
  {
    if frameCount != 0 && frameRate != 0.0 then frameCount as real / frameRate else mediaDuration
  }

  /** Once decoding has set `frameRate = frames.length / video.duration`, both duration
      sources agree. */
  lemma DecodedDurationAgrees(frameCount: nat, mediaDuration: real)
    requires frameCount > 0 && mediaDuration > 0.0
    ensures PlaybackDuration(frameCount, frameCount as real / mediaDuration, mediaDuration) == mediaDuration
  {
    var n := frameCount as real;
    var rate := n / mediaDuration;
    assert rate * mediaDuration == n;
    assert rate != 0.0;
    assert n / rate == mediaDuration by {
      assert rate * mediaDuration == n;
    }
  }

  /** The target time `setTargetTimePercent` assigns: the clamped percent of the duration.
      It lies in `[0, duration]`, grows with the percent, and out-of-range percents act as
      the nearest end. */
  function TargetTime(percent: real, duration: real): (t: real)
    ensures 0.0 <= duration ==> 0.0 <= t <= duration
    ensures percent <= 0.0 ==> t == 0.0
    ensures percent >= 1.0 ==> t == duration
    ensures 0.0 <= percent <= 1.0 ==> t == percent * duration
  {
    var c := Clamp01(percent);
    ScaleWithin(c, duration);
    c * duration
  }

  /** Scaling by a nonnegative amount keeps the order. */
  lemma ScaleMonotone(a: real, b: real, d: real)
    requires a <= b && 0.0 <= d
    ensures a * d <= b * d
  {
    if a < b && 0.0 < d {
      MulPositive(b - a, d);
      assert b * d - a * d == (b - a) * d;
    }
  }

  lemma TargetTimeMonotone(p: real, q: real, duration: real)
    requires p <= q && 0.0 <= duration
    ensures TargetTime(p, duration) <= TargetTime(q, duration)
  {
    if 0.0 < p && q < 1.0 {
      calc {
        TargetTime(p, duration);
      ==
        p * duration;
      <= { ScaleMonotone(p, q, duration); }
        q * duration;
      ==
        TargetTime(q, duration);
      }
    }
  }

  // ---------------------------------------------------------------------------------------
  // The steps of one tick

  /** The canvas path's step `diff / (256 / transitionSpeed)`, which is `diff * speed / 256`
      (for a speed of 0 both are 0). It leaves the gap `diff` contracted by
      `1 - speed/256`; for a speed in (0, 256] it points the way of the gap and is no
      longer than it. */
  function CanvasStep(diff: real, speed: real): (step: real)
    ensures diff - step == diff * Contraction(speed)
    ensures 0.0 < speed ==> (0.0 < step <==> 0.0 < diff) && (step < 0.0 <==> diff < 0.0)
    ensures 0.0 <= speed <= 256.0 ==> Abs(step) <= Abs(diff)
  {
    StepFraction(diff, speed / 256.0);
    diff * speed / 256.0
  }

  /** The native seeking path's step `diff / (64 / transitionSpeed)`, which is
      `diff * speed / 64`: the gap is contracted by `1 - speed/64`. */
  function SeekStep(diff: real, speed: real): (step: real)
    ensures diff - step == diff * (1.0 - speed / 64.0)
    ensures 0.0 < speed ==> (0.0 < step <==> 0.0 < diff) && (step < 0.0 <==> diff < 0.0)
    ensures 0.0 <= speed <= 64.0 ==> Abs(step) <= Abs(diff)
  {
    StepFraction(diff, speed / 64.0);
    diff * speed / 64.0
  }

  /** A fraction `k` of a gap points its way when `k > 0`, and is no longer than the gap
      when `k <= 1`. */
  lemma StepFraction(diff: real, k: real)
    ensures diff - diff * k == diff * (1.0 - k)
    ensures 0.0 < k ==> (0.0 < diff * k <==> 0.0 < diff) && (diff * k < 0.0 <==> diff < 0.0)
    ensures 0.0 <= k <= 1.0 ==> Abs(diff * k) <= Abs(diff)
  {
    if 0.0 < k {
      if 0.0 < diff {
        MulPositive(diff, k);
      } else if diff < 0.0 {
        MulPositive(-diff, k);
      }
    }
    if 0.0 <= k <= 1.0 {
      if 0.0 < diff {
        ScaleWithin(k, diff);
        assert Abs(diff * k) == k * diff;
      } else if diff < 0.0 {
        var m := -diff;
        ScaleWithin(k, m);
        assert Abs(diff * k) == k * m;
      }
    }
  }

  /** A step of `diff * k` towards the target, for a fraction `0 < k < 1`, shrinks the gap
      by the factor `1 - k`: strictly, and without reaching or crossing the target. */
  lemma StepContracts(current: real, target: real, k: real)
    requires 0.0 < k < 1.0
    requires current != target
    ensures var next := current + (target - current) * k;
      && target - next == (target - current) * (1.0 - k)
      && Abs(target - next) == Abs(target - current) * (1.0 - k)
      && Abs(target - next) < Abs(target - current)
      && (target > current <==> target > next)
      && next != target
  {
    var diff := target - current;
    var next := current + diff * k;
    assert target - next == diff - diff * k == diff * (1.0 - k);
    if diff > 0.0 {
      var q := 1.0 - k;
      MulPositive(diff, k);
      MulPositive(diff, q);
      assert target - next == diff * q;
    } else {
      var m, q := -diff, 1.0 - k;
      MulPositive(m, k);
      MulPositive(m, q);
      assert target - next == -(m * q);
    }
  }

  /** The decoded frame shown at `time`: `Math.floor(time * frameRate)`. */
  function FrameIndex(time: real, frameRate: real): (i: int)
    ensures i as real <= time * frameRate < i as real + 1.0
    ensures 0.0 <= time * frameRate ==> 0 <= i
  {
    (time * frameRate).Floor
  }

  /** `Math.max(Math.min(4 * diff, transitionSpeed, 16), 1)`. */
  function PlaybackRate(diff: real, speed: real): (rate: real)
    ensures 1.0 <= rate <= 16.0
    ensures rate == 1.0 || (rate <= 4.0 * diff && rate <= speed)
    ensures 1.0 <= 4.0 * diff <= 16.0 && 4.0 * diff <= speed ==> rate == 4.0 * diff
    ensures rate >= Min(Min(4.0 * diff, speed), 16.0)
  {
    Max(Min(Min(4.0 * diff, speed), 16.0), 1.0)
  }

  // ---------------------------------------------------------------------------------------
  // One tick

  /** The closure state of one chain of animation-frame callbacks started by
      `transitionToTargetTime`: the options it was started with, the direction and distance
      measured when it was started, and (from its first tick on) where and when it began. */
  datatype Tick = Tick(
    jump: bool,
    speed: real,
    easing: Option<real -> real>,
    isForward: bool,
    absDiff: real,
    anchor: Option<Anchor>)

  /** `startCurrentTime` and `startTimestamp`, fixed by a chain's first tick. */
  datatype Anchor = Anchor(startCurrentTime: real, startTimestamp: real)

  /** The session values a tick reads. */
  datatype Session = Session(
    currentTime: real,
    targetTime: real,
    frameThreshold: real,
    videoDuration: real,
    hasCanvas: bool,
    isSafari: bool,
    frameRate: real)

  /** What a tick does to the picture: paint a decoded frame, pause and seek the media
      element, or let it play at a rate. */
  datatype Effect = Paint(frameIndex: int) | Seek(position: real) | Play(rate: real)

  /** A tick either stops its chain or moves to new times and schedules its next tick. */
  datatype Outcome = Stop | Advance(targetTime: real, currentTime: real, effect: Effect)

  /** The stop rule: within a threshold of the target, or at or past it in the direction
      the chain was started in. */
  function Finished(isForward: bool, current: real, target: real, threshold: real): (done: bool)
    ensures var ahead := if isForward then target - current else current - target;
      !done <==> ahead >= threshold && ahead > 0.0
  {
    || Abs(target - current) < threshold
    || (if isForward then current >= target else current <= target)
  }

  /** The two successive clamps of the target to the media's duration and to 0. */
  function ClampTarget(target: real, duration: real): (t: real)
    ensures 0.0 <= duration ==> 0.0 <= t <= duration
    ensures 0.0 <= target <= duration ==> t == target
    ensures 0.0 <= duration && target > duration ==> t == duration
    ensures target < 0.0 <= duration ==> t == 0.0
  {
    var upper := if target > duration then duration else target;
    if upper < 0.0 then 0.0 else upper
  }

  /** `nextTime`: the eased position when an easing curve is given and the progress is
      finite, i.e. the chain's duration `1000 * absDiff` is not 0; otherwise the
      expression's last two alternatives. */
  function NextTime(t: Tick, a: Anchor, timestamp: real, diff: real): (next: real)
    ensures t.easing.Some? && t.absDiff != 0.0 ==>
      var e := t.easing.value((timestamp - a.startTimestamp) / (1000.0 * t.absDiff));
      && (e == 0.0 ==> next == a.startCurrentTime)
      && (e == 1.0 ==> next == a.startCurrentTime + t.absDiff)
      && (0.0 <= e <= 1.0 && 0.0 <= t.absDiff ==> a.startCurrentTime <= next <= a.startCurrentTime + t.absDiff)
    ensures !(t.easing.Some? && t.absDiff != 0.0) && 0.0 <= t.speed ==>
      && Abs(next - a.startCurrentTime) == Abs(diff) * t.speed
      && (if t.isForward then a.startCurrentTime <= next else next <= a.startCurrentTime)
  {
    var duration := 1000.0 * t.absDiff;
    if t.easing.Some? && duration != 0.0 then
      a.startCurrentTime + t.easing.value((timestamp - a.startTimestamp) / duration) * t.absDiff
    else if t.isForward then a.startCurrentTime + Abs(diff) * t.speed
    else a.startCurrentTime - Abs(diff) * t.speed
  }

  /** The body of `step`. `mediaPosition` is the media element's own position, read back
      on the native forward path. */
  function TickOutcome(t: Tick, a: Anchor, timestamp: real, s: Session, mediaPosition: real): (o: Outcome)
    ensures o.Stop? <==> Finished(t.isForward, s.currentTime, s.targetTime, s.frameThreshold)
    ensures o.Advance? && 0.0 <= s.videoDuration ==> 0.0 <= o.targetTime <= s.videoDuration
    ensures o.Advance? ==> o.targetTime == ClampTarget(s.targetTime, s.videoDuration)
    ensures o.Advance? && t.jump ==> o.currentTime == o.targetTime
    ensures o.Advance? ==> (o.effect.Paint? <==> s.hasCanvas)
    ensures o.Advance? && o.effect.Paint? ==> o.effect.frameIndex == FrameIndex(o.currentTime, s.frameRate)
    ensures o.Advance? ==> (o.effect.Play? <==> !s.hasCanvas && !t.jump && !s.isSafari && t.isForward)
    ensures o.Advance? && o.effect.Play? ==> 1.0 <= o.effect.rate <= 16.0 && o.currentTime == mediaPosition
    ensures o.Advance? && o.effect.Play? ==> o.effect.rate == PlaybackRate(o.targetTime - s.currentTime, t.speed)
    ensures o.Advance? && o.effect.Seek? ==> o.effect.position == o.currentTime
    ensures o.Advance? && !o.effect.Play? && !t.jump ==>
      var diff := o.targetTime - s.currentTime;
      o.currentTime == (if t.easing.Some? then NextTime(t, a, timestamp, diff)
                        else if s.hasCanvas then s.currentTime + CanvasStep(diff, t.speed)
                        else s.currentTime + SeekStep(diff, t.speed))
  {
    if Finished(t.isForward, s.currentTime, s.targetTime, s.frameThreshold) then Stop
    else
      var target := ClampTarget(s.targetTime, s.videoDuration);
      var diff := target - s.currentTime;
      var next := NextTime(t, a, timestamp, diff);
      if s.hasCanvas then
        var current :=
          if t.jump then target
          else if t.easing.Some? then next
          else s.currentTime + CanvasStep(diff, t.speed);
        Advance(target, current, Paint(FrameIndex(current, s.frameRate)))
      else if t.jump || s.isSafari || !t.isForward then
        var stepped := if t.easing.Some? then next else s.currentTime + SeekStep(diff, t.speed);
        var current := if t.jump then target else stepped;
        Advance(target, current, Seek(current))
      else
        Advance(target, mediaPosition, Play(PlaybackRate(diff, t.speed)))
  }

  /** Canvas path without easing: the tick paints frame `floor(currentTime * frameRate)` and
      contracts the gap to the (clamped) target by `1 - speed/256`, never crossing it. */
  lemma CanvasTickContracts(t: Tick, a: Anchor, timestamp: real, s: Session, mediaPosition: real)
    requires s.hasCanvas && !t.jump && t.easing.None? && 0.0 < t.speed < 256.0
    requires 0.0 <= s.targetTime <= s.videoDuration
    requires !Finished(t.isForward, s.currentTime, s.targetTime, s.frameThreshold)
    ensures var o := TickOutcome(t, a, timestamp, s, mediaPosition);
      && o.Advance?
      && o.targetTime == s.targetTime
      && o.effect == Paint(FrameIndex(o.currentTime, s.frameRate))
      && s.targetTime - o.currentTime == (s.targetTime - s.currentTime) * Contraction(t.speed)
      && Abs(s.targetTime - o.currentTime) == Abs(s.targetTime - s.currentTime) * Contraction(t.speed)
      && Abs(s.targetTime - o.currentTime) < Abs(s.targetTime - s.currentTime)
      && (s.targetTime > s.currentTime <==> s.targetTime > o.currentTime)
  {
    StepContracts(s.currentTime, s.targetTime, t.speed / 256.0);
  }

  /** Native seeking path without easing: pause, and step by `diff * speed / 64`, or land on
      the target exactly on a jump; the media is seeked to the new time. */
  lemma SeekTickContracts(t: Tick, a: Anchor, timestamp: real, s: Session, mediaPosition: real)
    requires !s.hasCanvas && (t.jump || s.isSafari || !t.isForward) && t.easing.None?
    requires 0.0 < t.speed < 64.0
    requires 0.0 <= s.targetTime <= s.videoDuration
    requires !Finished(t.isForward, s.currentTime, s.targetTime, s.frameThreshold)
    ensures var o := TickOutcome(t, a, timestamp, s, mediaPosition);
      && o.Advance?
      && o.effect == Seek(o.currentTime)
      && (t.jump ==> o.currentTime == s.targetTime)
      && (!t.jump ==>
            && s.targetTime - o.currentTime == (s.targetTime - s.currentTime) * (1.0 - t.speed / 64.0)
            && Abs(s.targetTime - o.currentTime) < Abs(s.targetTime - s.currentTime)
            && (s.targetTime > s.currentTime <==> s.targetTime > o.currentTime))
  {
    StepContracts(s.currentTime, s.targetTime, t.speed / 64.0);
  }

  // ---------------------------------------------------------------------------------------
  // Convergence of the canvas path

  function Pow(x: real, n: nat): real {
    if n == 0 then 1.0 else x * Pow(x, n - 1)
  }

  lemma {:induction false} PowPositive(x: real, n: nat)
    requires 0.0 < x
    ensures 0.0 < Pow(x, n)
  {
    if n > 0 {
      PowPositive(x, n - 1);
    }
  }

  /** Bernoulli's inequality in the form `(1 - c)^n * (1 + c*n) <= 1`. */
  lemma {:induction false} Bernoulli(c: real, n: nat)
    requires 0.0 < c < 1.0
    ensures Pow(1.0 - c, n) * (1.0 + c * n as real) <= 1.0
  {
    if n > 0 {
      Bernoulli(c, n - 1);
      var p := Pow(1.0 - c, n - 1);
      var m := (n - 1) as real;
      PowPositive(1.0 - c, n - 1);
      assert (1.0 - c) * (1.0 + c * (m + 1.0)) == 1.0 + c * m - c * c * (m + 1.0);
      assert c * c * (m + 1.0) >= 0.0;
      assert p * (1.0 + c * m - c * c * (m + 1.0)) <= p * (1.0 + c * m);
      assert Pow(1.0 - c, n) * (1.0 + c * n as real) == p * ((1.0 - c) * (1.0 + c * (m + 1.0)));
    }
  }

  /** The session after `n` ticks of one chain, staying put once the chain stops. */
  function Run(t: Tick, a: Anchor, s: Session, n: nat): Session
    decreases n
  {
    if n == 0 then s
    else match TickOutcome(t, a, 0.0, s, 0.0)
      case Stop => s
      case Advance(target, current, _) => Run(t, a, s.(targetTime := target, currentTime := current), n - 1)
  }

  /** The factor one canvas tick leaves of the gap. */
  function Contraction(speed: real): real {
    1.0 - speed / 256.0
  }

  /** One tick of a chain that has not finished, as `Run` takes it. */
  lemma CanvasRunStep(t: Tick, a: Anchor, s: Session, n: nat) returns (s': Session)
    requires s.hasCanvas && !t.jump && t.easing.None? && 0.0 < t.speed < 256.0
    requires 0.0 <= s.targetTime <= s.videoDuration
    requires !Finished(t.isForward, s.currentTime, s.targetTime, s.frameThreshold)
    requires 0 < n
    ensures Run(t, a, s, n) == Run(t, a, s', n - 1)
    ensures s'.targetTime == s.targetTime && s'.frameThreshold == s.frameThreshold
    ensures s'.videoDuration == s.videoDuration && s'.hasCanvas
    ensures Abs(s'.targetTime - s'.currentTime) == Abs(s.targetTime - s.currentTime) * Contraction(t.speed)
  {
    CanvasTickContracts(t, a, 0.0, s, 0.0);
    var o := TickOutcome(t, a, 0.0, s, 0.0);
    s' := s.(targetTime := o.targetTime, currentTime := o.currentTime);
  }

  /** `gap` drops below `threshold` once it has been multiplied by `k` `n` times. */
  predicate BelowAfter(gap: real, k: real, n: nat, threshold: real)
    decreases n
  {
    if n == 0 then gap < threshold else BelowAfter(gap * k, k, n - 1, threshold)
  }

  lemma {:induction false} BelowAfterPow(gap: real, k: real, n: nat, threshold: real)
    ensures BelowAfter(gap, k, n, threshold) <==> gap * Pow(k, n) < threshold
    decreases n
  {
    if n > 0 {
      BelowAfterPow(gap * k, k, n - 1, threshold);
      assert gap * k * Pow(k, n - 1) == gap * Pow(k, n);
    }
  }

  lemma {:induction false} RunStopsWithin(t: Tick, a: Anchor, s: Session, n: nat)
    requires s.hasCanvas && !t.jump && t.easing.None? && 0.0 < t.speed < 256.0
    requires 0.0 <= s.targetTime <= s.videoDuration
    requires BelowAfter(Abs(s.targetTime - s.currentTime), Contraction(t.speed), n, s.frameThreshold)
    ensures var r := Run(t, a, s, n);
      Finished(t.isForward, r.currentTime, r.targetTime, r.frameThreshold)
    decreases n
  {
    if !Finished(t.isForward, s.currentTime, s.targetTime, s.frameThreshold) {
      if n == 0 {
        assert false;
      }
      var s' := CanvasRunStep(t, a, s, n);
      RunStopsWithin(t, a, s', n - 1);
    }
  }

  /** The first whole number `n` above `gap / (c * threshold)` has `c * n * threshold > gap`. */
  lemma TicksNeeded(gap: real, c: real, threshold: real) returns (n: nat)
    requires 0.0 <= gap && 0.0 < c && 0.0 < threshold
    ensures n as real > gap / (c * threshold)
    ensures c * n as real * threshold > gap
  {
    var d := c * threshold;
    MulPositive(c, threshold);
    var bound := gap / d;
    n := bound.Floor + 1;
    assert bound * d == gap;
    MulPositive(n as real - bound, d);
    assert c * n as real * threshold == n as real * d;
  }

  /** With `c * n * threshold > gap`, `n` contractions by `1 - c` bring the gap below the
      threshold. */
  lemma ContractedBelow(gap: real, c: real, threshold: real, n: nat)
    requires 0.0 <= gap && 0.0 < c < 1.0 && 0.0 < threshold
    requires c * n as real * threshold > gap
    ensures gap * Pow(1.0 - c, n) < threshold
  {
    Bernoulli(c, n);
    PowPositive(1.0 - c, n);
    var p := Pow(1.0 - c, n);
    var m := 1.0 + c * n as real;
    assert threshold * m > gap;
    assert p * m <= 1.0;
    if gap > 0.0 {
      assert gap * p * m <= gap by {
        assert gap * p * m == gap * (p * m);
        if p * m < 1.0 { MulPositive(gap, 1.0 - p * m); }
      }
      assert gap * p * m < threshold * m;
      assert m > 0.0;
      if gap * p >= threshold {
        if gap * p > threshold { MulPositive(gap * p - threshold, m); }
        assert false;
      }
    } else {
      assert gap * p == 0.0;
    }
  }

  lemma Rescaled(gap: real, speed: real, threshold: real)
    requires 0.0 < speed && 0.0 < threshold
    ensures gap / (speed / 256.0 * threshold) == gap * 256.0 / (speed * threshold)
  {
    var d := speed * threshold;
    MulPositive(speed, threshold);
    assert speed / 256.0 * threshold == d / 256.0;
  }

  /** Enough canvas ticks for a gap of `gap` to drop below `threshold`: the first whole number
      above `gap * 256 / (speed * threshold)`. */
  lemma CanvasTicksNeeded(gap: real, speed: real, threshold: real) returns (n: nat)
    requires 0.0 <= gap && 0.0 < speed < 256.0 && 0.0 < threshold
    ensures n as real > gap * 256.0 / (speed * threshold)
    ensures BelowAfter(gap, Contraction(speed), n, threshold)
  {
    var c := speed / 256.0;
    n := TicksNeeded(gap, c, threshold);
    Rescaled(gap, speed, threshold);
    ContractedBelow(gap, c, threshold, n);
    BelowAfterPow(gap, Contraction(speed), n, threshold);
  }

  /** Canvas-mode convergence: without easing and with `0 < speed < 256` and a positive
      threshold, a chain whose target lies in `[0, videoDuration]` stops after at most
      `n` ticks, where `n` is the first whole number above `gap * 256 / (speed * threshold)`. */
  lemma CanvasConverges(t: Tick, a: Anchor, s: Session) returns (n: nat)
    requires s.hasCanvas && !t.jump && t.easing.None? && 0.0 < t.speed < 256.0
    requires 0.0 <= s.targetTime <= s.videoDuration
    requires 0.0 < s.frameThreshold
    ensures n as real > Abs(s.targetTime - s.currentTime) * 256.0 / (t.speed * s.frameThreshold)
    ensures var r := Run(t, a, s, n);
      Finished(t.isForward, r.currentTime, r.targetTime, r.frameThreshold)
  {
    n := CanvasTicksNeeded(Abs(s.targetTime - s.currentTime), t.speed, s.frameThreshold);
    RunStopsWithin(t, a, s, n);
  }
}
