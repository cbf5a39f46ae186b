# ScrollyVideo, modelled in Dafny

`scrolly.js` makes a video play along with the page's scroll position. It decodes the video into frames and paints the frame for the current time on a canvas. When no frames are decoded, it seeks the native media element instead. Each scroll fraction becomes a target time. A chain of animation-frame callbacks (`step`) moves the shown time towards that target, one tick at a time. Before frames can be decoded, the demuxed `avcC` box has to be rebuilt into the AVCDecoderConfigurationRecord of ISO/IEC 14496-15, section 5.2.4.1. That record is the decoder's `description`.

This project models both parts:

- `avc_config.dfy` (module `AvcConfig`) covers `avcCBoxToDescription`. It is a method over an `array` of bytes with a moving offset. It is proved to fill the buffer exactly, and its output is the record layout. The module also has a parser for the record, with round trips in both directions.
- `timing.dfy` (module `Timing`) holds the pure rules of the time transition engine:
  - the duration a percent refers to;
  - the clamped target time;
  - the stop rule;
  - the canvas and seek steps;
  - the native playback rate;
  - one tick as a whole (`TickOutcome`).

  It also proves that canvas-mode chains without easing converge.
- `scroll_geometry.dfy` (module `ScrollGeometry`) covers the scroll fraction read by the scroll handler and the offset `setScrollPercent` scrolls to. The two are inverse.
- `scrolly_video.dfy` (module `Scrolly`) holds `class ScrollyVideo`. Its fields are the session's state. Its methods are `paintCanvasFrame`, `transitionToTargetTime`, one `step` tick, `setTargetTimePercent`, the debounced scroll handler and `setScrollPercent`. The browser's animation-frame queue is a field, `scheduled`, which maps each pending handle to the state of its `step` closure. `requestAnimationFrame` and `cancelAnimationFrame` are methods on that map. The browser firing a handle is a call of `Step`.
- `wrappers.dfy` holds `Option` and `Result`.

Times are exact reals. Bytes are integers 0..255. `DataView.setUint8` and `setUint16` reduce their argument modulo 2^8 and 2^16, and the model writes that reduction out.

Where the code and its design description disagree, the model follows the code:

- The scroll fraction reaches `onChange` unclamped. It is clamped only inside `setTargetTimePercent`.
- The stop rule cancels whatever handle `transitioningRaf` holds, not necessarily its own chain's.
- Ticks clamp `targetTime`, not `currentTime`. They clamp it to the media element's duration, not to the duration of the decoded frames.
- The native rate is `max(min(4*diff, speed, 16), 1)`. It is 1 even when the speed is below 1.
- An eased chain moves `easing(progress) * absDiff` forward of where it started, whatever its direction (line 211).
- Starting a transition does not cancel a running chain. This is logged under Findings, and the rest of the model uses the corrected transition.

## Model

| member | source | states |
|---|---|---|
| AvcConfig.ToUint8 | scrolly.js:391-396 | `setUint8` stores a value in 0..255 unchanged and any other value modulo 256 |
| AvcConfig.Uint16BE | scrolly.js:398 | `setUint16` writes two bytes that spell, big-endian, any length below 65536 |
| AvcConfig.Header | scrolly.js:391-396 | six header bytes; byte 4 is `0b111111` over `lengthSizeMinusOne` when it is below 4, and byte 5 is `0b111` over `nb_SPS_nalus` when it is below 32 |
| AvcConfig.EntriesSpace | scrolly.js:383-388 | the length loop adds exactly `Σ (2 + length)` over a list |
| AvcConfig.Entry | scrolly.js:398-401 | an entry is `2 + length` bytes: the NALU bytes after two bytes that spell, big-endian, any length below 65536 |
| AvcConfig.Entries | scrolly.js:397-402 | the entries of a list, in order, take exactly `Σ (2 + length)` bytes, the amount the length loop adds |
| AvcConfig.Description | scrolly.js:391-409 | the record is exactly as long as the allocated `7 + Σ SPS + Σ PPS`; the header sits at 0, the SPS entries at 6, the PPS count right after them and the PPS entries up to the end |
| AvcConfig.PutEntry | scrolly.js:398-401 | writes the 16-bit length and the NALU bytes at the offset, keeps what is before it, and returns the offset past the entry |
| AvcConfig.PutEntries | scrolly.js:397-402 | the entry loop appends every entry, in order, at the moving offset |
| AvcConfig.AvcCBoxToDescription | scrolly.js:381-411 | for every box, the buffer has the computed length and holds exactly the record (header, SPS entries, PPS count, PPS entries), so the offset ends at the length |
| AvcConfig.ParseEntriesRoundTrip | scrolly.js:397-409 | reading `n` length-prefixed entries back from their serialisation returns the entries and the bytes after them |
| AvcConfig.DescriptionRoundTrip | scrolly.js:391-409 | parsing the record of a well-formed box (fields fit their bits, counts match the lists, lengths fit 16 bits) gives the box back |
| AvcConfig.ParseEntriesExact | scrolly.js:397-409 | whatever the entry reader accepts is exactly the serialisation of the entries it returns, followed by the rest |
| AvcConfig.DescriptionParsedExactly | scrolly.js:391-409 | a record the parser accepts comes from a well-formed box, and serialising that box gives back exactly the bytes read |
| Timing.Clamp01 | scrolly.js:261 | the clamped percent lies in [0, 1], equals the percent inside it, and is the nearer end outside it |
| Timing.PlaybackDuration | scrolly.js:260 | with frames and a nonzero frame rate the duration is the one at which the frame count at that rate fills it (`d * frameRate == frames`); otherwise it is the media element's duration |
| Timing.TargetTime | scrolly.js:261 | the target lies in [0, duration]; it is `percent * duration` for a percent in [0, 1], 0 below and the duration above |
| Timing.TargetTimeMonotone | scrolly.js:261 | a larger percent never gives an earlier target |
| Timing.DecodedDurationAgrees | scrolly.js:260 | once decoding sets `frameRate = frames.length / video.duration` (line 152), the frame-based duration equals the media duration |
| Timing.PlaybackRate | scrolly.js:237 | the native rate is always in [1, 16]; unless it is 1 it is at most `4*diff` and at most the speed; it is at least the least of `4*diff`, the speed and 16, so it is exactly `max(min(4*diff, speed, 16), 1)` |
| Timing.ClampTarget | scrolly.js:201-206 | the clamped target lies in [0, video duration]; an in-range target is left alone, one past the duration becomes the duration and a negative one becomes 0 |
| Timing.Finished | scrolly.js:191-192 | a chain runs on exactly when the time is still strictly short of the target in the chain's direction, and by at least the frame threshold |
| Timing.NextTime | scrolly.js:209-213 | with an easing curve and a nonzero gap, the position is the start where the curve gives 0, `absDiff` past the start where it gives 1, and in between for curve values in [0, 1], in either direction; otherwise, for a nonnegative speed, it moves `abs(diff) * speed` from the start in the chain's direction |
| Timing.CanvasStep | scrolly.js:221 | the canvas step leaves the gap contracted by `1 - speed/256`; for a positive speed it points the gap's way, and up to 256 it is no longer than the gap |
| Timing.SeekStep | scrolly.js:230 | the seek step leaves the gap contracted by `1 - speed/64`; for a positive speed it points the gap's way, and up to 64 it is no longer than the gap |
| Timing.FrameIndex | scrolly.js:223 | the painted index is the whole number `i` with `i <= currentTime * frameRate < i + 1`, and it is not negative for a nonnegative product |
| Timing.TickOutcome | scrolly.js:191-243 | a tick stops iff the chain is `Finished`. Otherwise the target becomes `ClampTarget` of it, so it lies in [0, duration]. A jump lands on it. Otherwise the new time is the eased `NextTime` with a curve, else the old time plus the `CanvasStep` on a canvas or the `SeekStep` natively. A canvas tick paints `FrameIndex` of the new time. The forward, non-jump, non-Safari native tick plays at `PlaybackRate(diff, speed)`, which lies in [1, 16], and reads the media's position back. Every other native tick seeks to the new time |
| Timing.StepContracts | scrolly.js:221 | a step of a fraction `k` in (0, 1) of the gap shrinks it by the factor `1 - k`, keeps its sign, and never reaches or crosses the target |
| Timing.CanvasTickContracts | scrolly.js:215-223 | without jump or easing and with `0 < speed < 256`, a canvas tick keeps the target, multiplies the gap by `1 - speed/256` without overshoot, and paints the frame of the new time |
| Timing.SeekTickContracts | scrolly.js:225-235 | without easing and with `0 < speed < 64`, a hard native tick seeks to its new time; a jump lands exactly on the target, otherwise the gap is multiplied by `1 - speed/64`, so it shrinks without overshoot |
| Timing.RunStopsWithin | scrolly.js:189-249 | if `n` contractions by `1 - speed/256` bring the gap below the threshold, a canvas chain has stopped after `n` ticks |
| Timing.CanvasConverges | scrolly.js:189-249 | every canvas chain without jump or easing, with `0 < speed < 256` and a positive threshold, stops within the first whole number of ticks above `gap * 256 / (speed * threshold)` |
| ScrollGeometry.ScrollFraction | scrolly.js:92 | the fraction times the scrollable distance `rect.height - innerHeight` is how far the parent's top has moved above the viewport |
| ScrollGeometry.ScrollTarget | scrolly.js:277 | scrolled to the computed offset, the parent's top sits `percent` of the scrollable distance above the viewport |
| ScrollGeometry.ScrollRoundTrip | scrolly.js:277 | scrolling to the offset `setScrollPercent` computes for `p` makes the scroll handler's fraction (line 92) read `p` again |
| ScrollGeometry.ScrollTargetOfCurrentFraction | scrolly.js:277-279 | asking for the fraction the page is already at gives the current offset, so the in-flight record is dropped and nothing scrolls |
| ScrollGeometry.ScrollTargetMonotone | scrolly.js:277 | with a parent taller than the viewport, larger fractions scroll further down, and different fractions give different offsets |
| Scrolly.NewChain | scrolly.js:183-188 | a new chain is forward iff the target is ahead, measures the absolute gap, takes the instance's speed when none is given, and starts without an anchor |
| Scrolly.ScrollyVideo.constructor | scrolly.js:74-79 | a session starts at time 0 with no frames, frame rate 0, no canvas, a paused media element and no pending tick |
| Scrolly.ScrollyVideo.RequestFrame | scrolly.js:252-255 | `requestAnimationFrame` adds the callback under a fresh positive handle |
| Scrolly.ScrollyVideo.CancelFrame | scrolly.js:195 | `cancelAnimationFrame` removes exactly that handle's callback |
| Scrolly.ScrollyVideo.AttachFrames | scrolly.js:146-162 | with no decoded frames nothing changes. Otherwise the frame rate becomes frames per second of media, a canvas takes over, and the percent duration equals the media duration. The current frame is painted and the canvas takes its size; when the current time names no frame, the canvas and the drawn frame stay as they were |
| Scrolly.ScrollyVideo.PaintCanvasFrame | scrolly.js:169-181 | paints iff a canvas exists and the index names a frame. The canvas then takes that frame's width and height. Otherwise nothing changes |
| Scrolly.ScrollyVideo.TransitionToTargetTimeAsWritten | scrolly.js:183-257 | requests the first tick of a new chain and records its handle, leaving every pending tick pending |
| Scrolly.ScrollyVideo.TransitionToTargetTime | scrolly.js:183-257 | the same with the running chain cancelled first: the new chain is the only one pending |
| Scrolly.ScrollyVideo.Retarget | scrolly.js:260-264 | the target becomes the clamped percent of the duration. A transition is wanted iff it is a jump or the target is at least a threshold away |
| Scrolly.ScrollyVideo.SetTargetTimePercent | scrolly.js:259-269 | sets the clamped target. It starts exactly one chain unless the request is a non-jump within the threshold, and then leaves the ticks untouched. Single-flight is kept. The current time, the media element, the frames and the canvas stay as they were |
| Scrolly.ScrollyVideo.SetTargetTimePercentAsWritten | scrolly.js:259-269 | the same with the transition as written, which adds a chain beside the running one |
| Scrolly.ScrollyVideo.Step | scrolly.js:189-249 | one fired tick applies `TickOutcome`. A stop pauses, leaves both times and the canvas alone, cancels the recorded handle and clears it. An advance takes the new times and schedules the chain's next tick with its anchor fixed. A paint draws an existing frame and sizes the canvas to it, or changes nothing for an index naming no frame. A seek or a play leaves the canvas alone. Single-flight is kept |
| Scrolly.ScrollyVideo.ApplyOutcome | scrolly.js:193-248 | the state after a stop or an advance, as in `Step`, for a given outcome |
| Scrolly.ScrollyVideo.EndChain | scrolly.js:193-197 | pauses, cancels the recorded handle if there is one, and clears it |
| Scrolly.ScrollyVideo.ApplyEffect | scrolly.js:223-243 | a paint draws the frame and sizes the canvas to it when the frame exists, and otherwise changes nothing. A seek pauses and moves the media. A play sets the rate, plays and reads the media's position. Neither a seek nor a play touches the canvas |
| Scrolly.ScrollyVideo.ContinueChain | scrolly.js:247-249 | the chain's next tick is requested and its handle recorded |
| Scrolly.ScrollyVideo.OnScroll | scrolly.js:90-100 | with no programmatic scroll in flight, the raw fraction becomes the target and is reported, and a jump chain toward it becomes the only pending tick. It runs over the corrected `SetTargetTimePercent`: as written, line 95 would leave the running chain pending beside it. While a scroll is in flight, neither the target nor the ticks change and nothing is reported. The record is dropped iff the page is within 1px of it. The current time, the media element, the frames and the canvas never change |
| Scrolly.ScrollyVideo.SetScrollPercent | scrolly.js:271-284 | does nothing without scroll tracking. Within 1px of the computed offset it drops the record. Otherwise it scrolls to that offset and records it |
| Scrolly.StaleChainStrandsTarget | scrolly.js:252-255 | with the transition as written, jump to 8s then to 2s: the first chain's stop cancels the second chain, and the session is left at 8s with a 2s target and nothing pending |
| Scrolly.LatestChainReachesTarget | scrolly.js:252-255 | the same two jumps with the corrected transition end at 2s with nothing pending |

## Left out

- DOM construction, styling, cover and sticky layout, resize and `destroy` are browser side effects with no state the session reads. `destroy` cancels neither the tick nor the debounce timer.
- The `decodeVideo` pipeline (fetch, MP4Box demuxing, WebCodecs decoding, `createImageBitmap`) is foreign asynchronous code. Only its end, which attaches the frames, is modelled (`AttachFrames`).
- The debounce timer of the scroll handler is not modelled. `OnScroll` is the handler's body for one evaluation. The parent's rectangle, the viewport height and the page offset are its parameters. `onChange` is its result.
- `requestAnimationFrame` is assumed to exist. Timestamps are parameters of `Step`. The native media's own clock, read back on the play path, is the `mediaPosition` parameter.
- NaN and Infinity are not modelled: the `isNaN` guards, non-finite progress, and a zero scroll span or zero duration. `OnScroll` and `AttachFrames` require what keeps their quotients finite. IEEE rounding is not modelled either.
- Timing.NextTime: the easing curve is an opaque function. Progress counts as finite iff the chain's `1000 * absDiff` is nonzero.
- Timing.CanvasConverges: convergence is proved only for the canvas path without jump or easing. With easing, the position is whatever the curve gives.
- The `play()` call of `setTargetTimePercent` (line 266) is only reached while the media element is already playing, so it changes no modelled state.
- UA sniffing is not modelled: `isSafari` is a constructor parameter. Logging and the page-level instantiation are left out too.
- AvcConfig.AvcCBoxToDescription: an entry's `length` is taken to be the number of its NALU bytes, which is what the demuxer produces. The high-profile extension fields of the record are not written by the serialiser, and are not modelled.

## Findings

| source | as written | input that shows it | evidently intended | confidence | as-written member | corrected member |
|---|---|---|---|---|---|---|
| scrolly.js:252-255 | `transitionToTargetTime` requests a new chain and overwrites `transitioningRaf` without cancelling the running chain. When the older chain stops, it cancels the handle in `transitioningRaf`, which belongs to the newer chain, so the newer chain never runs | native mode, duration 10s, speed 8, threshold 0.1: jump to 80%, one tick, jump to 20%, then the first chain's pending tick fires | starting a transition supersedes the running chain, so the latest target is reached | medium, not executed | Scrolly.StaleChainStrandsTarget | Scrolly.ScrollyVideo.TransitionToTargetTime |
