# Hand-gesture mouse: verified model of the gesture core

This project models the gesture-interpretation core of the hand-gesture mouse
controller, which is the body of the main frame loop in `tempCodeRunnerFile.py`.
Each camera frame gives either no hand or the 21 pixel-space landmarks of one
hand. The core does three things with a frame:

- It classifies the five fingers as up (1) or down (0). The thumb compares x
  coordinates. The other four fingers compare their tip's y with the joint two
  ids below it.
- It runs a latched mode machine over the globals `mode` (Neutral, Scroll,
  Volume, Cursor) and `active`. A gesture mode is entered only from neutral
  and unlocked. It is left only through that mode's own exit gesture.
- It runs the current mode's block. Scroll scrolls by ±300. Volume maps the
  thumb–index distance from [50, 200] onto [-63, maxVol]. Cursor maps the index
  tip from the zone [110, 620] × [20, 350] onto the screen, snaps it to even
  pixels, and clicks whenever the thumb is down.

Modules:

- `Hand` (`hand.dfy`): the landmark record, the finger vector as a function
  (`Fingers`), and the classification loop as a method (`ClassifyFingers`)
  proved equal to it.
- `Interpolation` (`interpolation.dfy`): `np.interp` on a two-point table over
  exact reals, Python's `int()` (truncation toward zero) and `v - v % 2`.
- `Gestures` (`gestures.dfy`): modes, commands, the entry rules, one function
  per mode block, and `Frame`, which is one pass of the loop. The class
  `GestureController` has the fields `mode` and `active`. Its `Step` method
  runs one frame in the source's if/elif order and is proved to produce
  exactly `Frame`. `ProcessFrames` runs the loop over a finite run of frames
  and is proved to produce exactly `Run`.
- `GestureProperties` (`properties.dfy`): lemmas about the latch, the entry
  table, the per-mode tables, the volume and cursor mappings, and the
  worked examples.

The actuators are modelled as command values they would receive: `ScrollBy`,
`SetVolumeLevel`, `MoveCursor` and `Click`. The screen size is a parameter of
each frame, because the source asks `autopy.screen.size()` on every cursor
frame. The top of the device's volume range (`maxVol`) is a constructor
parameter, and it must be above the fixed minimum -63. The thumb–index
distance that `math.hypot` computes is a frame input. Its meaning is pinned
down by `IsDistance`: it is non-negative and its square equals dx² + dy².

Two facts about the code that the model keeps:

- The code indexes the hand list directly (`lm_list[tip_ids[0]]` and so on,
  from `tempCodeRunnerFile.py:67`), so a list shorter than 21 would raise
  `IndexError`. The detector yields one landmark per MediaPipe hand point
  (`HandTrackingModule.py:85-88`), so the model requires 21 landmarks.
- The thumb test is `x[4] > x[3]` whichever hand is shown, and the model does
  the same.

## Model

| member | source | states |
|---|---|---|
| Hand.Fingers | tempCodeRunnerFile.py:63-77 | no hand gives the empty vector; a hand gives exactly 5 flags; thumb is 1 iff x[4] > x[3]; index, middle, ring and pinky are 1 iff y of tip 8/12/16/20 is strictly less than y of 6/10/14/18 |
| Hand.ClassifyFingers | tempCodeRunnerFile.py:63-77 | the append loop (thumb, then `for i in range(1, 5)`) builds exactly the finger vector |
| Interpolation.Interp | tempCodeRunnerFile.py:118 | np.interp on a two-point table never leaves the interval between its two outputs |
| Interpolation.InterpClamps | tempCodeRunnerFile.py:118 | inputs at or left of x0 give y0; inputs at or right of x1 give y1 (clamping, no extrapolation) |
| Interpolation.InterpOnLine | tempCodeRunnerFile.py:118 | inside [x0, x1] the result lies on the line through (x0, y0) and (x1, y1) |
| Interpolation.InterpMonotone | tempCodeRunnerFile.py:118 | for a rising table a larger input never gives a smaller output |
| Interpolation.InterpStrictlyMonotone | tempCodeRunnerFile.py:118 | for a strictly rising table the map is strictly increasing on [x0, x1] |
| Interpolation.Truncate | tempCodeRunnerFile.py:138-139 | `int()` truncates toward zero: the result is within 1 of its argument, on the side of zero |
| Interpolation.TruncateIsFloor | tempCodeRunnerFile.py:138-139 | on non-negative values truncation equals floor |
| Interpolation.SnapEven | tempCodeRunnerFile.py:140 | `X - X % 2` is even, non-negative, not above X and less than 2 below it |
| Interpolation.SnapEvenIsLargestEven | tempCodeRunnerFile.py:140 | no even value not above X exceeds the snapped value |
| Gestures.Enter | tempCodeRunnerFile.py:80-87 | with the latch set no entry rule changes the state; a mode changes only when the latch is clear |
| Gestures.VolumePercent | tempCodeRunnerFile.py:122 | the displayed percentage lies in [0, 100]; it is 0 at the minimum level and 100 at the maximum |
| Gestures.ScreenCoord | tempCodeRunnerFile.py:138-139 | the interpolated, truncated screen coordinate lies in [0, size - 1]; the zone's low edge (and beyond) maps to 0 and its high edge (and beyond) to size - 1 |
| Gestures.CursorTarget | tempCodeRunnerFile.py:136-140 | the move target is even in both coordinates and lies in [0, W - 1] × [0, H - 1] |
| Gestures.ScrollBlock | tempCodeRunnerFile.py:91-102 | the body is the definition; its contract says the block stays in Scroll or exits to (N, 0), and that it issues no command or a single ±300 scroll, only while it stays in the mode; the full table is ScrollFrame |
| Gestures.VolumeLevel | tempCodeRunnerFile.py:117-118 | the body is the definition; the level lies in [minVol, maxVol]; its clamping and monotonicity are VolumeLevelRange and VolumeLevelMonotone |
| Gestures.VolumeBlock | tempCodeRunnerFile.py:104-119 | the body is the definition; its contract says the block stays in Volume or exits to (N, 0), issues nothing when it exits, and issues at most one SetVolumeLevel, within [minVol, maxVol], which it does issue with a hand present and no exit gesture; the full table is VolumeFrame |
| Gestures.CursorBlock | tempCodeRunnerFile.py:129-146 | the body is the definition; its contract says the block stays in Cursor or exits to (N, 0), issues nothing when it exits, that any command it issues is an on-screen move, optionally followed by one click, and that with a hand present and no exit gesture it does issue one; the full table is CursorFrame and ClickIffThumbDown |
| Gestures.ModeBlock | tempCodeRunnerFile.py:91-146 | the body is the definition (dispatch at lines 91, 104 and 129); its contract says the state is kept or reset to (N, 0), an exit issues nothing, and the neutral mode does nothing |
| Gestures.Frame | tempCodeRunnerFile.py:63-146 | the body is the definition; its contract says a frame without a hand changes nothing and issues nothing, and that a frame keeps the state, resets it to (N, 0) or sets the latch from a clear one; the behaviour is stated by NeutralFrame, LatchedFrame and FrameKeepsLatch |
| Gestures.Run | tempCodeRunnerFile.py:54-146 | the body is the definition (frames applied in order); it logs one command list per frame; what it computes is stated by ProcessFrames and RunKeepsLatch |
| Gestures.FrameKeepsLatch | tempCodeRunnerFile.py:80-134 | one frame preserves `active == 1 <==> mode != N` |
| Gestures.GestureController.constructor | tempCodeRunnerFile.py:45-46 | the core starts in (N, 0), where the latch invariant holds |
| Gestures.GestureController.Step | tempCodeRunnerFile.py:63-146 | one loop iteration updates `mode` and `active` and issues commands exactly as `Frame` states, and it keeps the latch invariant |
| Gestures.GestureController.ProcessFrames | tempCodeRunnerFile.py:54-146 | the frame loop over a run of frames ends in the state `Run` gives, with each frame's commands logged in order, and keeps the latch invariant |
| GestureProperties.RunKeepsLatch | tempCodeRunnerFile.py:45-134 | the latch invariant, true initially, holds after every run of frames |
| GestureProperties.InitialIsLatched | tempCodeRunnerFile.py:45-46 | the initial state (N, 0) satisfies the latch invariant |
| GestureProperties.LatchedFrame | tempCodeRunnerFile.py:80-134 | while latched, the next state is (N, 0) if the current mode's exit gesture is shown, and otherwise the state is unchanged |
| GestureProperties.EntryOnlyFromNeutral | tempCodeRunnerFile.py:80-87 | a frame that moves into a new non-neutral mode started from (N, 0) |
| GestureProperties.NoHandFrame | tempCodeRunnerFile.py:63-146 | a frame without a hand leaves `mode` and `active` unchanged and issues no command, whatever the state |
| GestureProperties.NeutralFrame | tempCodeRunnerFile.py:80-146 | from (N, 0) the whole table holds: [0,1,0,0,0] enters Scroll and scrolls +300; [0,1,1,0,0] enters Scroll and scrolls -300; [1,1,0,0,0] enters Volume and sets the level; [1,1,1,1,1] enters Cursor and moves without clicking; anything else stays idle |
| GestureProperties.ScrollFrame | tempCodeRunnerFile.py:91-102 | in Scroll: [0,1,0,0,0] scrolls +300; [0,1,1,0,0] scrolls -300; [0,0,0,0,0] exits to (N, 0) without scrolling; any other vector does nothing |
| GestureProperties.ScrollRoundTrip | tempCodeRunnerFile.py:82-102 | entering Scroll by either gesture and then showing a closed fist returns to (N, 0) |
| GestureProperties.VolumeLevelRange | tempCodeRunnerFile.py:117-118 | distance ≤ 50 gives minVol; distance ≥ 200 gives maxVol; the level always lies in [minVol, maxVol] |
| GestureProperties.VolumeLevelMonotone | tempCodeRunnerFile.py:117-118 | the level never decreases with the distance and increases strictly inside [50, 200] |
| GestureProperties.WiderSpreadLouder | tempCodeRunnerFile.py:117-118 | of two hands, the one whose thumb and index tips are farther apart sets at least as high a level |
| GestureProperties.VolumeFrame | tempCodeRunnerFile.py:104-119 | in Volume: pinky up exits to (N, 0) with no volume command; otherwise exactly one SetVolumeLevel with the mapped level |
| GestureProperties.VolumePercentRange | tempCodeRunnerFile.py:122 | the percentage for any distance lies in [0, 100]; it is 0 when pinched and 100 when fully spread |
| GestureProperties.PinchedVolumeExample | tempCodeRunnerFile.py:109-119 | thumb tip (100, 100) and index tip (150, 100) are 50 px apart and set the level -63 |
| GestureProperties.CursorFrame | tempCodeRunnerFile.py:133-146 | in Cursor: index to pinky down exits to (N, 0) with no move and no click, whatever the thumb; otherwise a move to the index tip's mapped, even-snapped target, which lies on screen, then a click exactly when the thumb is down |
| GestureProperties.TopRightCornerFrameExample | tempCodeRunnerFile.py:133-140 | in a Cursor frame on a 1920 × 1080 screen, an index tip at (620, 20) moves the cursor to (1918, 0) |
| GestureProperties.ClickIffThumbDown | tempCodeRunnerFile.py:133-146 | a frame clicks iff, after entry, the mode is Cursor, a hand is present, the exit gesture is absent and the thumb is down; the trigger is per frame, with no edge detection |
| GestureProperties.ScreenCoordMonotone | tempCodeRunnerFile.py:138-139 | moving the index tip right or down never moves the mapped coordinate left or up |
| GestureProperties.CursorCorners | tempCodeRunnerFile.py:138-140 | the zone's four corners map to (0, 0), (W-1 snapped, 0), (0, H-1 snapped) and (W-1 snapped, H-1 snapped) |
| GestureProperties.TopRightCornerExample | tempCodeRunnerFile.py:137-140 | on a 1920 × 1080 screen, the zone corner (620, 20) moves the cursor to (1918, 0) |

## Left out

- `HandTrackingModule.py` is not part of this model. It wraps MediaPipe and OpenCV: it runs detection, converts normalised coordinates to pixels with `int(lm.x * w)`, and has a webcam demo. The model keeps only its `Landmark` record, without the optional depth `z`, which the core never reads. It also keeps the fact that a detected hand has exactly 21 landmarks. Like the source, the model reads landmarks by their position in the list and never reads `id`, so it does not constrain `id`.
- Camera capture, frame-grab failure, the `q` key, drawing and text overlays, the volume bar's pixel position (`vol_bar`) and the FPS computation are I/O and display. The infinite `while True` loop is modelled by `ProcessFrames` over a finite sequence of frames.
- The OS actuators (`pyautogui.scroll` and `click`, `autopy.mouse.move`, pycaw's `SetMasterVolumeLevel`) are modelled as emitted `Command` values. `autopy.screen.size()` and `GetVolumeRange()` become parameters. The screen size is taken as integers, while `autopy.screen.size()` returns floats.
- `math.hypot` is not computed. The distance is a frame input constrained by `IsDistance`, because Dafny's reals have no square root.
- Floating-point rounding in `np.interp` and `math.hypot` is not modelled. All volume and cursor arithmetic is over exact reals.
- Gestures.Run: its own contract only fixes the number of logged frames. What it computes is stated by `ProcessFrames` and `RunKeepsLatch`.
