# magic-mirror-node core, modelled in Dafny

The application classifies what a webcam sees and drives a learning/quiz game
from the result. This project models the five small pieces of live logic in it
and proves their contracts:

- **Detection-count smoother** (`ObjectDetection`, `detection_handler.dfy`):
  `ObjectDetectionHandler` keeps a JavaScript `Map` from object name to hit
  count. The model represents it as `CountMap`: the keys in insertion order plus
  a map. `updateDetectionCount` adds one to a name's count. `getMostDetectedObject`
  folds the entries with a strict `>` starting from `['', 0]` and reports the
  winner only when its count exceeds `maxCount`.
- **Top-K ranking and centre crop** (`DetectObject`, `detect_object.dfy`):
  `getTopKClasses` pairs each score with its index and sorts stably by
  descending score. It then keeps the first `topK` and labels each by index.
  The model's sort is an insertion sort, and `RankedUnique` proves that every
  stable descending sort gives the same result. `preprocessInput` cuts a centred
  224×224 window out of the frame.
- **Overlay geometry and colours** (`BoxRender`, `box_render.dfy`): the
  20-entry palette and `Colors.get`, the `#RRGGBB` parser `Colors.hexToRgba`,
  and the font-size, line-width and label-clamp formulas. `renderBoxes` is a
  method whose loop emits a sequence of abstract canvas commands.
- **Game state** (`GameState`, `game_state.dfy`): `GameStateManager` holds
  the mode, score and countdown timer. The interval callback is an explicit
  `Tick` step that acts only while an interval is live.
- **Video sizing** (`VideoCamera`, `camera.dfy`): `setupVideoDimensions` sets
  the shorter side of the video element to 224 and keeps the stream's aspect
  ratio. It uses exact `real` arithmetic.

`wrappers.dfy` defines the `Option` type that stands for `null`/`undefined`
results.

JavaScript numbers are modelled as `int` or `real`. Two JavaScript operators
are written out: `%`, which truncates toward zero (`JsRemainder`), and
`slice(0, end)` with a negative `end` (`SliceEnd`).

Four facts about the code shape the model:
- The counter starts empty, and `clear()` removes every key.
- Any name can be counted; there is no fixed set of tracked classes.
- The frame is centre-cropped to a 224×224 window.
- No non-max suppression is live: the block in src/lib/detectObject.ts that
  runs it is commented out.

## Model

| member | source | states |
|---|---|---|
| `ObjectDetection.ObjectDetectionHandler.constructor` | src/lib/objectDetectionHandler.ts:8-12 | the count map starts empty and `maxCount` holds the given value |
| `ObjectDetection.ObjectDetectionHandler.ResetDetectionCounts` | src/lib/objectDetectionHandler.ts:18-20 | afterwards the map has no keys at all (emptied, not zeroed); the positive-count invariant holds |
| `ObjectDetection.ObjectDetectionHandler.UpdateDetectionCount` | src/lib/objectDetectionHandler.ts:22-25 | the new map is the old one with the name's count incremented; the invariant that every present count is ≥ 1 is preserved |
| `ObjectDetection.CountMap.Increment` | src/lib/objectDetectionHandler.ts:23-24 | the name's count becomes (old count, or 0 when absent) + 1; every other key's value is unchanged; the old keys keep their order and a new key goes last; positive counts stay positive |
| `ObjectDetection.CountMap.Set` | src/lib/objectDetectionHandler.ts:24 | `Map.set` keeps an existing key's position and appends a new key; other keys keep their values |
| `ObjectDetection.CountMap.Get` | src/lib/objectDetectionHandler.ts:23 | `Map.get` (also at line 32) is defined exactly for the stored keys and gives the stored count |
| `ObjectDetection.EmptyMap` | src/lib/objectDetectionHandler.ts:10-19 | `new Map()` and `clear()` give a well-formed map with no keys, on which every lookup is undefined |
| `ObjectDetection.PickMax` | src/lib/objectDetectionHandler.ts:29 | the reducer returns one of its two entries, with a count at least both counts; on a tie or a smaller current count it keeps the accumulated entry |
| `ObjectDetection.Reduce` | src/lib/objectDetectionHandler.ts:28-31 | the fold returns the seed or one of the entries, and its count is at least the seed's and every entry's |
| `ObjectDetection.CountMap.Entries` | src/lib/objectDetectionHandler.ts:28 | `Array.from(entries())` lists (key, count) pairs in insertion order |
| `ObjectDetection.ReduceFirstMax` | src/lib/objectDetectionHandler.ts:28-31 | the strict-`>` fold returns the first entry holding the maximal count, when that count beats the seed |
| `ObjectDetection.ReduceKeepsSeed` | src/lib/objectDetectionHandler.ts:28-31 | when no count exceeds the seed's, the fold returns the seed |
| `ObjectDetection.FirstMaxExists` | src/lib/objectDetectionHandler.ts:28-31 | every non-empty entry list has a first position of maximal count |
| `ObjectDetection.MostDetected` | src/lib/objectDetectionHandler.ts:27-33 | a reported name is a key whose count strictly exceeds `maxCount` |
| `ObjectDetection.MostDetectedEmpty` | src/lib/objectDetectionHandler.ts:28-32 | on an empty map the result is null: the seed `''` is not a key |
| `ObjectDetection.MostDetectedIsFirstMax` | src/lib/objectDetectionHandler.ts:28-32 | with positive counts, the candidate is the first key in insertion order with the maximal count; it is reported iff that count > `maxCount` |
| `ObjectDetection.RepeatFromEmpty` | src/lib/objectDetectionHandler.ts:22-25 | n ≥ 1 updates of one name on an empty map give the single key with count n |
| `ObjectDetection.ThresholdCrossing` | src/lib/objectDetectionHandler.ts:22-32 | after n ≥ 1 updates of one name the name is reported iff n > `maxCount` (so `maxCount`+1 updates report it and `maxCount` do not) |
| `ObjectDetection.ObjectDetectionHandler.GetMostDetectedObject` | src/lib/objectDetectionHandler.ts:27-33 | read-only: null on an empty map; otherwise the first maximal key when its count exceeds `maxCount` and null when it does not |
| `DetectObject.CenterCrop` | src/lib/detectObject.ts:353-361 | the crop is 224×224, and on each axis its margin before equals its margin after (the window is centred) |
| `DetectObject.CropInsideFrame` | src/lib/detectObject.ts:353-361 | the window lies inside the frame iff both frame sides are at least 224 |
| `DetectObject.Indexed` | src/lib/detectObject.ts:391-394 | entry i is (i, values[i]) |
| `DetectObject.Insert` | src/lib/detectObject.ts:395 | an insertion step adds exactly one element (multiset) |
| `DetectObject.SortDescending` | src/lib/detectObject.ts:395 | the sort is a permutation of its input |
| `DetectObject.InsertRanked` | src/lib/detectObject.ts:395 | inserting an element with a larger index than all present keeps descending-value, ascending-index-on-tie order |
| `DetectObject.SortRanked` | src/lib/detectObject.ts:395 | sorting (index, value) pairs of increasing index gives values non-increasing with ties in ascending index order (stability) |
| `DetectObject.RankedUnique` | src/lib/detectObject.ts:395 | two ranked orderings of the same elements are equal, so any stable sort with comparator `b.value - a.value` yields the modelled result |
| `DetectObject.SliceEnd` | src/lib/detectObject.ts:396 | `slice(0, end)` keeps min(end, len) elements for end ≥ 0 and max(len + end, 0) for end < 0 |
| `DetectObject.RankedPredictions` | src/lib/detectObject.ts:391-395 | the sorted pairs have len(values) elements, with distinct in-range indices, each carrying values[index] |
| `DetectObject.RankedPosition` | src/lib/detectObject.ts:391-395 | every index of `values` occurs in the sorted pairs |
| `DetectObject.TopKPredictions` | src/lib/detectObject.ts:389-396 | `SliceEnd(len(values), topK)` entries with distinct indices of `values`; each value is values[index]; values non-increasing and equal values in ascending index order |
| `DetectObject.TopKIsGenuine` | src/lib/detectObject.ts:393-396 | a score whose index was not returned is ≤ every returned score, and every returned entry ranks before it (higher score, or equal score and lower index), so a tie at the cut keeps the lower index |
| `DetectObject.LabelAt` | src/lib/detectObject.ts:399 | the label is labels[index] when the index is in the table, undefined otherwise |
| `DetectObject.GetTopKClasses` | src/lib/detectObject.ts:389-402 | the result has min(topK, len(values)) entries for topK ≥ 0 (slice semantics otherwise); entry i carries the label and score of the i-th ranked index |
| `DetectObject.Detect` | src/lib/detectObject.ts:407-415 | `detect` returns min(5, len(values)) scores in non-increasing order |
| `BoxRender.JsRemainder` | src/lib/boxRender.ts:143 | JavaScript `%`: undefined for divisor 0; the dividend equals the truncated quotient times the divisor plus the remainder; the remainder's magnitude is below the divisor's and its sign is the dividend's (≥ 0 for a ≥ 0, ≤ 0 for a < 0); for non-negative operands it is the Euclidean remainder |
| `BoxRender.NewColors` | src/lib/boxRender.ts:117-141 | the palette has exactly 20 entries, the listed colours, and `n` = 20 |
| `BoxRender.Colors.Get` | src/lib/boxRender.ts:143 | for a consistent palette and i ≥ 0 the result is palette[floor(i) mod n]; a negative id gives undefined unless floor(i) is a multiple of n, and then gives palette[0] (the `-0` index); any result is a palette colour |
| `BoxRender.GetPeriodic` | src/lib/boxRender.ts:143 | on non-negative ids, `get(i + 20) = get(i)` |
| `BoxRender.HexDigitValue` | src/lib/boxRender.ts:148 | a hex digit's value lies in 0..15 |
| `BoxRender.PairValue` | src/lib/boxRender.ts:148 | a two-digit hex group's value lies in 0..255 |
| `BoxRender.IsHexColor` | src/lib/boxRender.ts:146 | a string the pattern accepts has 6 or 7 characters, and no `#` after its first character |
| `BoxRender.HexToRgba` | src/lib/boxRender.ts:145-152 | non-null iff the input is six hex digits optionally after one `#`; on success each channel lies in 0..255 and alpha is passed through |
| `BoxRender.HexToRgbaIgnoresCase` | src/lib/boxRender.ts:146 | lower-casing the input changes neither acceptance nor the channels (the `i` flag) |
| `BoxRender.HashOptional` | src/lib/boxRender.ts:146 | the leading `#` is optional: prefixing one to a string that has none changes neither acceptance nor the channels |
| `BoxRender.HexRoundTrip` | src/lib/boxRender.ts:146-151 | parsing `#RRGGBB` written from (r, g, b) gives back exactly r, g, b in that order |
| `BoxRender.UndefinedDoesNotParse` | src/lib/boxRender.ts:88 | a missing colour, read as the text "undefined", gives null |
| `BoxRender.PaletteParses` | src/lib/boxRender.ts:118-143 | for every id ≥ 0 `get` is defined and its colour parses, so the `as string` cast at line 88 never hides a null |
| `BoxRender.Round` | src/lib/boxRender.ts:67 | `Math.round` gives the integer within [x − ½, x + ½) |
| `BoxRender.FontSize` | src/lib/boxRender.ts:66-69 | the font size is ≥ 14, and equals the rounded max(W, H)/40 whenever that reaches 14.5 |
| `BoxRender.LineWidth` | src/lib/boxRender.ts:92 | the line width is the larger of min(W, H)/200 and 2.5 |
| `BoxRender.LabelTop` | src/lib/boxRender.ts:99-102 | the label's top edge is max(0, y1′ − (textHeight + lineWidth)); it is never negative |
| `BoxRender.LabelOf` | src/lib/boxRender.ts:74 | the label is defined only for an integral class id inside the table |
| `BoxRender.ScaledBox` | src/lib/boxRender.ts:79-85 | the scaled width and height are the box's width times ratio 0 and its height times ratio 1; a non-negative ratio keeps the corners in order |
| `BoxRender.DetectionCommands` | src/lib/boxRender.ts:73-110 | each detection issues four drawing commands |
| `BoxRender.DetectionGeometry` | src/lib/boxRender.ts:79-109 | detection i reads slots 4i..4i+3; x is scaled by ratio 0 and y by ratio 1; the box is (x1′, y1′, x2′ − x1′, y2′ − y1′); the label sits just above the box, or at y = 0 when there is no room; the text goes at the label's corner; the box is filled with `hexToRgba(get(class), 0.2)` and stroked in `get(class)` at the canvas line width; the label is filled in `get(class)` and is as wide as the measured caption plus the line width; the text is white and is the class label with the score |
| `BoxRender.DrawAll` | src/lib/boxRender.ts:73-110 | k detections give 4k commands |
| `BoxRender.DrawAllLayout` | src/lib/boxRender.ts:73-110 | command block i is exactly detection i's commands (drawn in input order, one per score) |
| `BoxRender.RenderBoxes` | src/lib/boxRender.ts:60-111 | clear the whole canvas, set the font and the `top` text baseline, then 4 commands per score in input order |
| `GameState.TickStep` | src/lib/gameStateManager.ts:25-32 | one callback run: without a live interval nothing changes; a live tick at timer > 1 decrements the timer and changes nothing else; at timer ≤ 1 it stops the interval and nulls `timerRef`, leaving the timer; the timer never goes below 1; the interval stays live iff the timer was above 1, and stopping it nulls `timerRef` |
| `GameState.TicksFrom` | src/lib/gameStateManager.ts:25-32 | from a live countdown at t ≥ 1, n ticks leave t − n while n < t; from the t-th tick the interval is stopped, `timerRef` is null and the timer is 1 |
| `GameState.TicksNeverBelowOne` | src/lib/gameStateManager.ts:25-32 | ticks never take the timer below 1, and without a live interval they change nothing |
| `GameState.CountdownAfterReset` | src/lib/gameStateManager.ts:22-32 | 19 ticks after a reset the timer is 1 and the interval still live; the 20th tick stops it |
| `GameState.GameStateManager.constructor` | src/lib/gameStateManager.ts:7-12 | mode Welcome, score 0, timer 20, no interval and a null `timerRef` |
| `GameState.GameStateManager.SetMode` | src/lib/gameStateManager.ts:14-16 | only the mode changes |
| `GameState.GameStateManager.IncrementScore` | src/lib/gameStateManager.ts:18-20 | the score rises by exactly 1; mode and countdown are unchanged |
| `GameState.GameStateManager.ResetTimer` | src/lib/gameStateManager.ts:22-33 | timer 20, one live interval held by `timerRef`; mode and score unchanged |
| `GameState.GameStateManager.Tick` | src/lib/gameStateManager.ts:25-32 | while live: timer > 1 is decremented, timer ≤ 1 stops the interval and nulls `timerRef` with the timer unchanged |
| `GameState.GameStateManager.StopTimer` | src/lib/gameStateManager.ts:35-37 | no interval is live afterwards; timer, score, mode and `timerRef` (not nulled) are unchanged |
| `GameState.GameStateManager.GetMode` | src/lib/gameStateManager.ts:39-41 | returns the current mode without changing state |
| `GameState.GameStateManager.GetScore` | src/lib/gameStateManager.ts:43-45 | returns the current score without changing state |
| `GameState.GameStateManager.GetTimer` | src/lib/gameStateManager.ts:47-49 | returns the current timer without changing state |
| `VideoCamera.FitDimensions` | src/lib/camera.ts:34-44 | the fitted size has the stream's width/height ratio; the shorter side is 224 and the longer side is ≥ 224 |
| `VideoCamera.Camera.SetupVideoDimensions` | src/lib/camera.ts:34-44 | `aspectRatio` = width/height; landscape or square: height 224 and width aspectRatio·224; portrait: width 224 and height 224/aspectRatio; the element then has the fitted size |
| `VideoCamera.Camera.constructor` | src/lib/camera.ts:8-13 | `aspectRatio` starts at 0 and the element is the one given |

## Left out

- TensorFlow.js: loading, `fromPixels`, normalisation, `predict`,
  `reshape`/`squeeze`, `tidy`/`dispose` and `warmupModel` are foreign tensor
  code. Only the crop window's `begin`/`size` arithmetic is modelled, on the
  height and width axes. The channel axis (begin 0, size 3) is constant.
- `detectVideoFrame` and its `requestAnimationFrame` loop: this is browser
  scheduling.
- `ObjectDetectionHandler.loadModel` and the handler's `model` field: they call
  a `loadModel` that `ObjectDetectionModel` does not define. The model handle
  is not otherwise used by the counter.
- The commented-out code in src/lib/detectObject.ts and src/lib/boxRender.ts
  (old box decoding, non-max suppression, rate counters): it is dead code.
- `Camera.setupCamera`, `stopWebcam`, the snapshot canvas, src/lib/webcamHandler.ts,
  and the React components: these are media and DOM I/O.
- `setInterval`/`clearInterval` timing: an interval is only the `running`
  flag, and its callback is the explicit `Tick`.
- Canvas side effects. Commands are emitted as values. Assigning an invalid
  style (`undefined`, `null`) to a canvas keeps the previous style; the
  commands record the assigned value instead. Text measurement is the
  `measureText` parameter. The label text `klass - score%` (`toFixed(1)`) and
  the `rgba(...)` string are not formatted: `Caption` and `Rgba` hold their
  parts.
- `parseInt(font, 10)` is modelled as the integer font size the font string was
  built from.
- IEEE-754 behaviour: `NaN`, infinities, rounding, and the `NaN` a comparator
  can produce. Scores and coordinates are exact `real`s, and counts and the
  score are unbounded `int`s.
- BoxRender.RenderBoxes: requires four box slots and one class id per score,
  and two display ratios. With fewer, JavaScript reads `undefined` and computes `NaN`.
- VideoCamera.Camera.SetupVideoDimensions: requires positive width and height.
  Zero gives a division by zero (`Infinity`/`NaN` in JavaScript). The DOM's
  conversion of the assigned widths to unsigned integers is not modelled.
- DetectObject.CenterCrop: how `slice` treats a fractional or negative begin
  (a frame smaller than 224 or of odd size) is TensorFlow behaviour.
  `CropInsideFrame` only says when the window fits.
