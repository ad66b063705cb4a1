/** What the gesture core promises across frames and within each mode. */
module GestureProperties {
  import opened Hand
  import opened Interpolation
  import opened Gestures

  /** The latch stays consistent with the mode over any run of frames that
      starts from a consistent state, in particular from start-up. */
  lemma {:induction false} RunKeepsLatch(s: ModeState, inputs: seq<Input>, maxVol: real)
    requires Latched(s)
    requires AllWellFormed(inputs)
    ensures Latched(Run(s, inputs, maxVol).0)
    decreases |inputs|
  {
    if inputs != [] {
      var init := inputs[..|inputs| - 1];
      assert AllWellFormed(init) by {
        forall k | 0 <= k < |init| ensures WellFormed(init[k]) {
          assert init[k] == inputs[k];
        }
      }
      RunKeepsLatch(s, init, maxVol);
      var i := inputs[|inputs| - 1];
      assert WellFormed(i);
      FrameKeepsLatch(Run(s, init, maxVol).0, i.lm, i.length, i.screenW, i.screenH, maxVol);
    }
  }

  lemma InitialIsLatched()
    ensures Latched(INITIAL)
  {
  }

  /** Once latched, the only state change is the current mode's own exit
      gesture, and every exit returns to neutral and unlocked. */
  lemma LatchedFrame(s: ModeState, lm: seq<Landmark>, length: real, screenW: int, screenH: int, maxVol: real)
    requires Latched(s) && s.active == 1
    requires PoseOrEmpty(lm)
    requires screenW >= 1 && screenH >= 1
    ensures Frame(s, lm, length, screenW, screenH, maxVol).state
            == if ExitGesture(s.mode, Fingers(lm)) then INITIAL else s
  {
  }

  /** A gesture mode is only ever entered from neutral and unlocked. */
  lemma EntryOnlyFromNeutral(s: ModeState, lm: seq<Landmark>, length: real, screenW: int, screenH: int, maxVol: real)
    requires Latched(s)
    requires PoseOrEmpty(lm)
    requires screenW >= 1 && screenH >= 1
    ensures var r := Frame(s, lm, length, screenW, screenH, maxVol).state;
            r.mode != Neutral && r.mode != s.mode ==> s == INITIAL
  {
  }

  /** A frame without a hand changes nothing and issues nothing, whatever
      the state. */
  lemma NoHandFrame(s: ModeState, length: real, screenW: int, screenH: int, maxVol: real)
    requires screenW >= 1 && screenH >= 1
    ensures Frame(s, [], length, screenW, screenH, maxVol) == Outcome(s, [])
  {
  }

  /** The entry table from neutral: each entry gesture latches its mode and
      the mode's block already acts on the entering frame; any other vector
      leaves the core idle. */
  lemma NeutralFrame(lm: seq<Landmark>, length: real, screenW: int, screenH: int, maxVol: real)
    requires IsPose(lm)
    requires screenW >= 1 && screenH >= 1
    ensures var f, r := Fingers(lm), Frame(INITIAL, lm, length, screenW, screenH, maxVol);
            r == if f == [0, 1, 0, 0, 0] then Outcome(ModeState(Scroll, 1), [ScrollBy(300)])
                 else if f == [0, 1, 1, 0, 0] then Outcome(ModeState(Scroll, 1), [ScrollBy(-300)])
                 else if f == [1, 1, 0, 0, 0] then
                   Outcome(ModeState(Volume, 1), [SetVolumeLevel(VolumeLevel(length, maxVol))])
                 else if f == [1, 1, 1, 1, 1] then
                   Outcome(ModeState(Cursor, 1), [MoveCursor(CursorTarget(lm[8].x, lm[8].y, screenW, screenH).0,
                                                             CursorTarget(lm[8].x, lm[8].y, screenW, screenH).1)])
                 else Outcome(INITIAL, [])
  {
  }

  /** The Scroll table while scrolling. */
  lemma ScrollFrame(lm: seq<Landmark>, length: real, screenW: int, screenH: int, maxVol: real)
    requires IsPose(lm)
    requires screenW >= 1 && screenH >= 1
    ensures var s, f := ModeState(Scroll, 1), Fingers(lm);
            Frame(s, lm, length, screenW, screenH, maxVol)
            == if f == [0, 1, 0, 0, 0] then Outcome(s, [ScrollBy(300)])
               else if f == [0, 1, 1, 0, 0] then Outcome(s, [ScrollBy(-300)])
               else if f == [0, 0, 0, 0, 0] then Outcome(INITIAL, [])
               else Outcome(s, [])
  {
  }

  /** Entering Scroll by either gesture and then closing the hand returns to
      neutral and unlocked. */
  lemma ScrollRoundTrip(lm1: seq<Landmark>, lm2: seq<Landmark>, length1: real, length2: real,
                        screenW: int, screenH: int, maxVol: real)
    requires IsPose(lm1) && IsPose(lm2)
    requires screenW >= 1 && screenH >= 1
    requires Fingers(lm1) == [0, 1, 0, 0, 0] || Fingers(lm1) == [0, 1, 1, 0, 0]
    requires Fingers(lm2) == [0, 0, 0, 0, 0]
    ensures var mid := Frame(INITIAL, lm1, length1, screenW, screenH, maxVol).state;
            mid == ModeState(Scroll, 1) &&
            Frame(mid, lm2, length2, screenW, screenH, maxVol).state == INITIAL
  {
    NeutralFrame(lm1, length1, screenW, screenH, maxVol);
    ScrollFrame(lm2, length2, screenW, screenH, maxVol);
  }

  /** The volume level is the clamped linear map of the distance: the
      pinched end gives the minimum, the spread end the maximum, and it
      stays within the device's range. */
  lemma VolumeLevelRange(length: real, maxVol: real)
    requires MIN_VOL < maxVol
    ensures length <= HMIN ==> VolumeLevel(length, maxVol) == MIN_VOL
    ensures length >= HMAX ==> VolumeLevel(length, maxVol) == maxVol
    ensures MIN_VOL <= VolumeLevel(length, maxVol) <= maxVol
  {
  }

  /** Spreading thumb and index never lowers the volume, and strictly raises
      it inside the calibrated range. */
  lemma VolumeLevelMonotone(d1: real, d2: real, maxVol: real)
    requires MIN_VOL < maxVol && d1 <= d2
    ensures VolumeLevel(d1, maxVol) <= VolumeLevel(d2, maxVol)
    ensures HMIN <= d1 < d2 <= HMAX ==> VolumeLevel(d1, maxVol) < VolumeLevel(d2, maxVol)
  {
    InterpMonotone(d1, d2, HMIN, HMAX, MIN_VOL, maxVol);
    if HMIN <= d1 < d2 <= HMAX {
      InterpStrictlyMonotone(d1, d2, HMIN, HMAX, MIN_VOL, maxVol);
    }
  }

  /** Of two hands, the one whose thumb and index tips are farther apart
      sets the volume at least as high. */
  lemma WiderSpreadLouder(a1: Landmark, b1: Landmark, l1: real, a2: Landmark, b2: Landmark, l2: real, maxVol: real)
    requires MIN_VOL < maxVol
    requires IsDistance(l1, a1, b1) && IsDistance(l2, a2, b2)
    requires (b1.x - a1.x) * (b1.x - a1.x) + (b1.y - a1.y) * (b1.y - a1.y)
             <= (b2.x - a2.x) * (b2.x - a2.x) + (b2.y - a2.y) * (b2.y - a2.y)
    ensures VolumeLevel(l1, maxVol) <= VolumeLevel(l2, maxVol)
  {
    SquareMonotone(l1, l2);
    VolumeLevelMonotone(l1, l2, maxVol);
  }

  /** Non-negative reals compare like their squares. */
  lemma SquareMonotone(a: real, b: real)
    requires 0.0 <= a && 0.0 <= b && a * a <= b * b
    ensures a <= b
  {
    if a > b {
      ProductPositive(a - b, a + b);
    }
  }

  /** The Volume block while adjusting: a raised pinky leaves, otherwise the
      level follows the distance. */
  lemma VolumeFrame(lm: seq<Landmark>, length: real, screenW: int, screenH: int, maxVol: real)
    requires IsPose(lm)
    requires screenW >= 1 && screenH >= 1
    ensures var s := ModeState(Volume, 1);
            Frame(s, lm, length, screenW, screenH, maxVol)
            == if lm[20].y < lm[18].y then Outcome(INITIAL, [])
               else Outcome(s, [SetVolumeLevel(VolumeLevel(length, maxVol))])
  {
  }

  /** The display percentage always lies between 0 and 100. */
  lemma VolumePercentRange(length: real, maxVol: real)
    requires MIN_VOL < maxVol
    ensures 0 <= VolumePercent(VolumeLevel(length, maxVol), maxVol) <= 100
    ensures length <= HMIN ==> VolumePercent(VolumeLevel(length, maxVol), maxVol) == 0
    ensures length >= HMAX ==> VolumePercent(VolumeLevel(length, maxVol), maxVol) == 100
  {
  }

  /** Thumb tip at (100, 100) and index tip at (150, 100) are 50 pixels
      apart, the pinched end: the volume goes to -63. */
  lemma PinchedVolumeExample(lm: seq<Landmark>, length: real, screenW: int, screenH: int, maxVol: real)
    requires IsPose(lm)
    requires screenW >= 1 && screenH >= 1
    requires lm[4].x == 100 && lm[4].y == 100 && lm[8].x == 150 && lm[8].y == 100
    requires lm[20].y >= lm[18].y
    requires IsDistance(length, lm[4], lm[8])
    ensures Frame(ModeState(Volume, 1), lm, length, screenW, screenH, maxVol).cmds == [SetVolumeLevel(-63.0)]
  {
    assert length * length == 50.0 * 50.0;
    SquareMonotone(length, 50.0);
    VolumeFrame(lm, length, screenW, screenH, maxVol);
  }

  /** The Cursor block while pointing: index to pinky down leaves whatever the
      thumb does; otherwise the cursor moves to an even pixel on the screen,
      followed by a click exactly when the thumb is down. */
  lemma CursorFrame(lm: seq<Landmark>, length: real, screenW: int, screenH: int, maxVol: real)
    requires IsPose(lm)
    requires screenW >= 1 && screenH >= 1
    ensures var s, f, r := ModeState(Cursor, 1), Fingers(lm), Frame(ModeState(Cursor, 1), lm, length, screenW, screenH, maxVol);
            if f[1..] == [0, 0, 0, 0] then r == Outcome(INITIAL, [])
            else
              && r.state == s
              && 1 <= |r.cmds| <= 2
              && r.cmds[0] == MoveCursor(CursorTarget(lm[8].x, lm[8].y, screenW, screenH).0,
                                         CursorTarget(lm[8].x, lm[8].y, screenW, screenH).1)
              && r.cmds[0].x % 2 == 0 && 0 <= r.cmds[0].x <= screenW - 1
              && r.cmds[0].y % 2 == 0 && 0 <= r.cmds[0].y <= screenH - 1
              && (|r.cmds| == 2 <==> f[0] == 0)
              && (|r.cmds| == 2 ==> r.cmds[1] == Click)
  {
  }

  /** While pointing on a 1920 x 1080 screen, an index tip at the zone's
      top-right corner (620, 20) moves the cursor to (1918, 0). */
  lemma TopRightCornerFrameExample(lm: seq<Landmark>, length: real, maxVol: real)
    requires IsPose(lm)
    requires lm[8].x == 620 && lm[8].y == 20
    requires Fingers(lm)[1..] != [0, 0, 0, 0]
    ensures Frame(ModeState(Cursor, 1), lm, length, 1920, 1080, maxVol).cmds[0] == MoveCursor(1918, 0)
  {
    TopRightCornerExample();
  }

  /** Clicks are level-triggered: in a consistent state a frame clicks
      exactly when, after the entry rules, the core is in Cursor mode, a hand
      is present, the exit gesture is not shown and the thumb is down. */
  lemma ClickIffThumbDown(s: ModeState, lm: seq<Landmark>, length: real, screenW: int, screenH: int, maxVol: real)
    requires Latched(s)
    requires PoseOrEmpty(lm)
    requires screenW >= 1 && screenH >= 1
    ensures var f := Fingers(lm);
            Click in Frame(s, lm, length, screenW, screenH, maxVol).cmds
            <==> (Enter(s, f).mode == Cursor && lm != [] && f[1..] != [0, 0, 0, 0] && f[0] == 0)
  {
  }

  /** A larger image coordinate never maps to a smaller screen coordinate. */
  lemma ScreenCoordMonotone(v1: int, v2: int, lo: int, hi: int, size: int)
    requires lo < hi && size >= 1 && v1 <= v2
    ensures ScreenCoord(v1, lo, hi, size) <= ScreenCoord(v2, lo, hi, size)
  {
    var r1 := Interp(v1 as real, lo as real, hi as real, 0.0, (size - 1) as real);
    var r2 := Interp(v2 as real, lo as real, hi as real, 0.0, (size - 1) as real);
    InterpMonotone(v1 as real, v2 as real, lo as real, hi as real, 0.0, (size - 1) as real);
    TruncateIsFloor(r1);
    TruncateIsFloor(r2);
  }

  /** The corners of the control zone map onto the screen's corners, after
      the snap to even pixels. */
  lemma CursorCorners(screenW: int, screenH: int)
    requires screenW >= 1 && screenH >= 1
    ensures CursorTarget(ZONE_LEFT, ZONE_TOP, screenW, screenH) == (0, 0)
    ensures CursorTarget(ZONE_RIGHT, ZONE_TOP, screenW, screenH) == (SnapEven(screenW - 1), 0)
    ensures CursorTarget(ZONE_LEFT, ZONE_BOTTOM, screenW, screenH) == (0, SnapEven(screenH - 1))
    ensures CursorTarget(ZONE_RIGHT, ZONE_BOTTOM, screenW, screenH) == (SnapEven(screenW - 1), SnapEven(screenH - 1))
  {
  }

  /** On a 1920 x 1080 screen the top-right corner of the zone puts the
      cursor at (1918, 0). */
  lemma TopRightCornerExample()
    ensures CursorTarget(620, 20, 1920, 1080) == (1918, 0)
  {
    CursorCorners(1920, 1080);
  }
}
